/**
 * The demonstration vector of the ordered decoder's `main`
 * (_test_proj/main2.go:245-272): a 129-byte container whose eleven records
 * are the symbols `-`, `0`-`5`, `7`-`9` and `|`, with a 133-bit payload in 17
 * bytes, and the text the program is expected to print.
 */
module Demo {
  import opened Wrappers
  import opened Huffman
  import opened MinHeap
  import opened TreeBuilder
  import opened BitStream
  import opened Decoder
  import opened Container
  import opened MapVariant

  /** The bytes of the demonstration vector, as laid out in the source: header, table, trailer words, payload. */
  const DemoBytes: seq<byte> := DemoHead + DemoPayload

  /** The 112 bytes before the payload, its source rows grouped pairwise. */
  const DemoHead: seq<byte> :=
      (((([0x81, 0x00, 0x00, 0x00, 0x00, 0x00, 0x00, 0x00]
    + [0x0B, 0x00, 0x00, 0x00, 0x06, 0x00, 0x00, 0x00])
    + ([0x2D, 0x00, 0x00, 0x00, 0x09, 0x00, 0x00, 0x00]
    + [0x30, 0x00, 0x00, 0x00, 0x03, 0x00, 0x00, 0x00]))
    + (([0x31, 0x00, 0x00, 0x00, 0x03, 0x00, 0x00, 0x00]
    + [0x32, 0x00, 0x00, 0x00, 0x02, 0x00, 0x00, 0x00])
    + ([0x33, 0x00, 0x00, 0x00, 0x02, 0x00, 0x00, 0x00]
    + [0x34, 0x00, 0x00, 0x00, 0x06, 0x00, 0x00, 0x00])))
    + ((([0x35, 0x00, 0x00, 0x00, 0x03, 0x00, 0x00, 0x00]
    + [0x37, 0x00, 0x00, 0x00, 0x04, 0x00, 0x00, 0x00])
    + ([0x38, 0x00, 0x00, 0x00, 0x01, 0x00, 0x00, 0x00]
    + [0x39, 0x00, 0x00, 0x00, 0x02, 0x00, 0x00, 0x00]))
    + (([0x7C, 0x00, 0x00, 0x00]
    + [0x85, 0x00, 0x00, 0x00])
    + ([0x11, 0x00, 0x00, 0x00]
    + [0x29, 0x00, 0x00, 0x00]))))

  /** The frequency table of the vector, in file order: (symbol, count). */
  const DemoEntries: seq<FreqEntry> := [FreqEntry(45, 6), FreqEntry(48, 9), FreqEntry(49, 3), FreqEntry(50, 3), FreqEntry(51, 2), FreqEntry(52, 2), FreqEntry(53, 6), FreqEntry(55, 3), FreqEntry(56, 4), FreqEntry(57, 1), FreqEntry(124, 2)]

  /** The 17 payload bytes. */
  const DemoPayload: seq<byte> :=
      [0xD3, 0x0C, 0x78, 0x90, 0xFB, 0x1D, 0x0E, 0x6E]
    + [0x4B, 0x4C, 0x35, 0xDF, 0x17, 0x75, 0xBD, 0xAA, 0x90]

  /** "53801-198-55428-4050|53802-0-17725-70000|" as bytes. */
  const DemoOutput: seq<byte> := [53, 51, 56, 48, 49, 45, 49, 57, 56, 45, 53, 53, 52, 50, 56, 45, 52, 48, 53, 48, 124, 53, 51, 56, 48, 50, 45, 48, 45, 49, 55, 55, 50, 53, 45, 55, 48, 48, 48, 48, 124]

  // The tree the builder makes for the table, node by node.
  const LeafDash: NodeRef := Node(45, 6, Nil, Nil)
  const Leaf0: NodeRef := Node(48, 9, Nil, Nil)
  const Leaf1: NodeRef := Node(49, 3, Nil, Nil)
  const Leaf2: NodeRef := Node(50, 3, Nil, Nil)
  const Leaf3: NodeRef := Node(51, 2, Nil, Nil)
  const Leaf4: NodeRef := Node(52, 2, Nil, Nil)
  const Leaf5: NodeRef := Node(53, 6, Nil, Nil)
  const Leaf7: NodeRef := Node(55, 3, Nil, Nil)
  const Leaf8: NodeRef := Node(56, 4, Nil, Nil)
  const Leaf9: NodeRef := Node(57, 1, Nil, Nil)
  const LeafBar: NodeRef := Node(124, 2, Nil, Nil)
  const Join1: NodeRef := Node(0, 3, Leaf9, Leaf3)
  const Join2: NodeRef := Node(0, 4, LeafBar, Leaf4)
  const Join3: NodeRef := Node(0, 6, Leaf2, Leaf7)
  const Join4: NodeRef := Node(0, 6, Leaf1, Join1)
  const Join5: NodeRef := Node(0, 8, Leaf8, Join2)
  const Join6: NodeRef := Node(0, 12, Join4, Join3)
  const Join7: NodeRef := Node(0, 12, Leaf5, LeafDash)
  const Join8: NodeRef := Node(0, 17, Join5, Leaf0)
  const Join9: NodeRef := Node(0, 24, Join6, Join7)
  const Join10: NodeRef := Node(0, 41, Join8, Join9)

  const DemoTree: NodeRef := Join10

  /**
   * The vector unpacks to the text the program prints. Decoding stops at the
   * declared 133rd bit, three bits short of the payload's end; the
   * unpacked-length word (41) is read and not used.
   */
  lemma DemoUnpack()
    ensures Unpack(DemoBytes) == Ok(DemoOutput)
  {
    DemoTable();
    DemoBuild();
    DemoTrailer();
    DemoDecode();
  }

  /** Whatever the payload holds past the 133 declared bits, the same table and bit count give the same text. */
  lemma DemoPaddingIgnored(p: seq<byte>)
    requires |p| < U32_MODULUS && SameBits(p, DemoPayload, 133)
    ensures Unpack(ContainerBytes(129, 0, DemoEntries, 133, 41, p)) == Ok(DemoOutput)
  {
    var data := ContainerBytes(129, 0, DemoEntries, 133, 41, p);
    UnpackContainer(129, 0, DemoEntries, 133, 41, p, []);
    assert data + [] == data;
    DemoBuild();
    DecodeIgnoresPadding(DemoTree, p, DemoPayload, 133);
    DemoDecode();
  }

  /** The map-based copy, when its map is visited in file order, prints the same text. */
  lemma DemoMapVariant()
    ensures ParseFreqMap(DemoBytes, 0).Ok?
    ensures IsIterationOrder(ParseFreqMap(DemoBytes, 0).value.0, SymbolsOf(DemoEntries))
    ensures UnpackMapAt(DemoBytes, 0, SymbolsOf(DemoEntries)) == Ok(DemoOutput)
  {
    DemoTable();
    assert DistinctSymbols(DemoEntries);
    MapMatchesOrdered(DemoBytes, 0);
    DemoUnpack();
  }

  /** Reading the header words and the eleven records of the vector. */
  lemma DemoTable()
    ensures ParseTable(DemoBytes, 0) == Ok((DemoEntries, 100))
  {
    DemoHeader();
    DemoRecordsFront();
    DemoRecordsBack();
    assert DemoEntries[..0] == [] && DemoEntries[..11] == DemoEntries;
  }

  /** Reading the trailer words and the 17 payload bytes. */
  lemma DemoTrailer()
    ensures ReadTrailerAt(DemoBytes, 100) == Ok(((DemoPayload, 133), 129))
  {
    SmallWord(DemoBytes, 100, 133);
    SmallWord(DemoBytes, 104, 17);
    SmallWord(DemoBytes, 108, 41);
    assert DemoBytes[112..129] == DemoPayload;
  }

  /** A little-endian word whose upper three bytes are zero reads as its low byte. */
  lemma SmallWord(data: seq<byte>, pos: nat, v: byte)
    requires pos + 4 <= |data| && data[pos] == v && data[pos + 1] == 0 && data[pos + 2] == 0 && data[pos + 3] == 0
    ensures ReadU32At(data, pos) == Ok((v, pos + 4))
  {
  }

  /** Building the tree for the table, push by push and merge by merge. */
  lemma DemoBuild()
    ensures BuildTree(DemoEntries) == DemoTree
  {
    DemoPushed0();
    DemoMerged1();
    DemoMerged2();
    DemoMerged3();
    DemoMerged4();
    DemoMerged5();
    DemoMerged6();
    DemoMerged7();
    DemoMerged8();
    DemoMerged9();
    DemoMerged10();
    assert Combine([Join10]) == Join10;
  }

  /** Decoding the payload, symbol by symbol. */
  lemma DemoDecode()
    ensures DecodeSpec(DemoTree, DemoPayload, 133) == Ok(DemoOutput)
  {
    DemoSymbol0();
    DemoSymbol1();
    DemoSymbol2();
    DemoSymbol3();
    DemoSymbol4();
    DemoSymbol5();
    DemoSymbol6();
    DemoSymbol7();
    DemoSymbol8();
    DemoSymbol9();
    DemoSymbol10();
    DemoSymbol11();
    DemoSymbol12();
    DemoSymbol13();
    DemoSymbol14();
    DemoSymbol15();
    DemoSymbol16();
    DemoSymbol17();
    DemoSymbol18();
    DemoSymbol19();
    DemoSymbol20();
    DemoSymbol21();
    DemoSymbol22();
    DemoSymbol23();
    DemoSymbol24();
    DemoSymbol25();
    DemoSymbol26();
    DemoSymbol27();
    DemoSymbol28();
    DemoSymbol29();
    DemoSymbol30();
    DemoSymbol31();
    DemoSymbol32();
    DemoSymbol33();
    DemoSymbol34();
    DemoSymbol35();
    DemoSymbol36();
    DemoSymbol37();
    DemoSymbol38();
    DemoSymbol39();
    DemoSymbol40();
    assert DemoOutput[..0] == [] && DemoOutput[..41] == DemoOutput;
  }

  lemma DemoPushed11()
    ensures PushLeaves([Leaf9, Leaf3, Leaf4, Leaf7, LeafBar, LeafDash, Leaf5, Leaf0, Leaf8, Leaf2, Leaf1], DemoEntries[11..]) == [Leaf9, Leaf3, Leaf4, Leaf7, LeafBar, LeafDash, Leaf5, Leaf0, Leaf8, Leaf2, Leaf1]
  {
    assert DemoEntries[11..] == [];
  }

  lemma DemoPushed10()
    ensures PushLeaves([Leaf9, Leaf3, Leaf4, Leaf7, Leaf1, LeafDash, Leaf5, Leaf0, Leaf8, Leaf2], DemoEntries[10..]) == [Leaf9, Leaf3, Leaf4, Leaf7, LeafBar, LeafDash, Leaf5, Leaf0, Leaf8, Leaf2, Leaf1]
  {
    DemoPushed11();
    assert DemoEntries[10..][1..] == DemoEntries[11..];
    assert Leaf(DemoEntries[10..][0]) == LeafBar;
    assert HeapPush([Leaf9, Leaf3, Leaf4, Leaf7, Leaf1, LeafDash, Leaf5, Leaf0, Leaf8, Leaf2], LeafBar) == SiftUp([Leaf9, Leaf3, Leaf4, Leaf7, Leaf1, LeafDash, Leaf5, Leaf0, Leaf8, Leaf2, LeafBar], 10) by {}
    assert SiftUp([Leaf9, Leaf3, Leaf4, Leaf7, Leaf1, LeafDash, Leaf5, Leaf0, Leaf8, Leaf2, LeafBar], 10) == SiftUp([Leaf9, Leaf3, Leaf4, Leaf7, LeafBar, LeafDash, Leaf5, Leaf0, Leaf8, Leaf2, Leaf1], 4) by { assert Swap([Leaf9, Leaf3, Leaf4, Leaf7, Leaf1, LeafDash, Leaf5, Leaf0, Leaf8, Leaf2, LeafBar], 4, 10) == [Leaf9, Leaf3, Leaf4, Leaf7, LeafBar, LeafDash, Leaf5, Leaf0, Leaf8, Leaf2, Leaf1]; }
    assert SiftUp([Leaf9, Leaf3, Leaf4, Leaf7, LeafBar, LeafDash, Leaf5, Leaf0, Leaf8, Leaf2, Leaf1], 4) == [Leaf9, Leaf3, Leaf4, Leaf7, LeafBar, LeafDash, Leaf5, Leaf0, Leaf8, Leaf2, Leaf1] by {}
  }

  lemma DemoPushed9()
    ensures PushLeaves([Leaf3, Leaf1, Leaf4, Leaf7, Leaf2, LeafDash, Leaf5, Leaf0, Leaf8], DemoEntries[9..]) == [Leaf9, Leaf3, Leaf4, Leaf7, LeafBar, LeafDash, Leaf5, Leaf0, Leaf8, Leaf2, Leaf1]
  {
    DemoPushed10();
    assert DemoEntries[9..][1..] == DemoEntries[10..];
    assert Leaf(DemoEntries[9..][0]) == Leaf9;
    assert HeapPush([Leaf3, Leaf1, Leaf4, Leaf7, Leaf2, LeafDash, Leaf5, Leaf0, Leaf8], Leaf9) == SiftUp([Leaf3, Leaf1, Leaf4, Leaf7, Leaf2, LeafDash, Leaf5, Leaf0, Leaf8, Leaf9], 9) by {}
    assert SiftUp([Leaf3, Leaf1, Leaf4, Leaf7, Leaf2, LeafDash, Leaf5, Leaf0, Leaf8, Leaf9], 9) == SiftUp([Leaf3, Leaf1, Leaf4, Leaf7, Leaf9, LeafDash, Leaf5, Leaf0, Leaf8, Leaf2], 4) by { assert Swap([Leaf3, Leaf1, Leaf4, Leaf7, Leaf2, LeafDash, Leaf5, Leaf0, Leaf8, Leaf9], 4, 9) == [Leaf3, Leaf1, Leaf4, Leaf7, Leaf9, LeafDash, Leaf5, Leaf0, Leaf8, Leaf2]; }
    assert SiftUp([Leaf3, Leaf1, Leaf4, Leaf7, Leaf9, LeafDash, Leaf5, Leaf0, Leaf8, Leaf2], 4) == SiftUp([Leaf3, Leaf9, Leaf4, Leaf7, Leaf1, LeafDash, Leaf5, Leaf0, Leaf8, Leaf2], 1) by { assert Swap([Leaf3, Leaf1, Leaf4, Leaf7, Leaf9, LeafDash, Leaf5, Leaf0, Leaf8, Leaf2], 1, 4) == [Leaf3, Leaf9, Leaf4, Leaf7, Leaf1, LeafDash, Leaf5, Leaf0, Leaf8, Leaf2]; }
    assert SiftUp([Leaf3, Leaf9, Leaf4, Leaf7, Leaf1, LeafDash, Leaf5, Leaf0, Leaf8, Leaf2], 1) == [Leaf9, Leaf3, Leaf4, Leaf7, Leaf1, LeafDash, Leaf5, Leaf0, Leaf8, Leaf2] by { assert Swap([Leaf3, Leaf9, Leaf4, Leaf7, Leaf1, LeafDash, Leaf5, Leaf0, Leaf8, Leaf2], 0, 1) == [Leaf9, Leaf3, Leaf4, Leaf7, Leaf1, LeafDash, Leaf5, Leaf0, Leaf8, Leaf2]; }
  }

  lemma DemoPushed8()
    ensures PushLeaves([Leaf3, Leaf1, Leaf4, Leaf7, Leaf2, LeafDash, Leaf5, Leaf0], DemoEntries[8..]) == [Leaf9, Leaf3, Leaf4, Leaf7, LeafBar, LeafDash, Leaf5, Leaf0, Leaf8, Leaf2, Leaf1]
  {
    DemoPushed9();
    assert DemoEntries[8..][1..] == DemoEntries[9..];
    assert Leaf(DemoEntries[8..][0]) == Leaf8;
    assert HeapPush([Leaf3, Leaf1, Leaf4, Leaf7, Leaf2, LeafDash, Leaf5, Leaf0], Leaf8) == SiftUp([Leaf3, Leaf1, Leaf4, Leaf7, Leaf2, LeafDash, Leaf5, Leaf0, Leaf8], 8) by {}
    assert SiftUp([Leaf3, Leaf1, Leaf4, Leaf7, Leaf2, LeafDash, Leaf5, Leaf0, Leaf8], 8) == [Leaf3, Leaf1, Leaf4, Leaf7, Leaf2, LeafDash, Leaf5, Leaf0, Leaf8] by {}
  }

  lemma DemoPushed7()
    ensures PushLeaves([Leaf3, Leaf1, Leaf4, Leaf0, Leaf2, LeafDash, Leaf5], DemoEntries[7..]) == [Leaf9, Leaf3, Leaf4, Leaf7, LeafBar, LeafDash, Leaf5, Leaf0, Leaf8, Leaf2, Leaf1]
  {
    DemoPushed8();
    assert DemoEntries[7..][1..] == DemoEntries[8..];
    assert Leaf(DemoEntries[7..][0]) == Leaf7;
    assert HeapPush([Leaf3, Leaf1, Leaf4, Leaf0, Leaf2, LeafDash, Leaf5], Leaf7) == SiftUp([Leaf3, Leaf1, Leaf4, Leaf0, Leaf2, LeafDash, Leaf5, Leaf7], 7) by {}
    assert SiftUp([Leaf3, Leaf1, Leaf4, Leaf0, Leaf2, LeafDash, Leaf5, Leaf7], 7) == SiftUp([Leaf3, Leaf1, Leaf4, Leaf7, Leaf2, LeafDash, Leaf5, Leaf0], 3) by { assert Swap([Leaf3, Leaf1, Leaf4, Leaf0, Leaf2, LeafDash, Leaf5, Leaf7], 3, 7) == [Leaf3, Leaf1, Leaf4, Leaf7, Leaf2, LeafDash, Leaf5, Leaf0]; }
    assert SiftUp([Leaf3, Leaf1, Leaf4, Leaf7, Leaf2, LeafDash, Leaf5, Leaf0], 3) == [Leaf3, Leaf1, Leaf4, Leaf7, Leaf2, LeafDash, Leaf5, Leaf0] by {}
  }

  lemma DemoPushed6()
    ensures PushLeaves([Leaf3, Leaf1, Leaf4, Leaf0, Leaf2, LeafDash], DemoEntries[6..]) == [Leaf9, Leaf3, Leaf4, Leaf7, LeafBar, LeafDash, Leaf5, Leaf0, Leaf8, Leaf2, Leaf1]
  {
    DemoPushed7();
    assert DemoEntries[6..][1..] == DemoEntries[7..];
    assert Leaf(DemoEntries[6..][0]) == Leaf5;
    assert HeapPush([Leaf3, Leaf1, Leaf4, Leaf0, Leaf2, LeafDash], Leaf5) == SiftUp([Leaf3, Leaf1, Leaf4, Leaf0, Leaf2, LeafDash, Leaf5], 6) by {}
    assert SiftUp([Leaf3, Leaf1, Leaf4, Leaf0, Leaf2, LeafDash, Leaf5], 6) == [Leaf3, Leaf1, Leaf4, Leaf0, Leaf2, LeafDash, Leaf5] by {}
  }

  lemma DemoPushed5()
    ensures PushLeaves([Leaf3, Leaf1, LeafDash, Leaf0, Leaf2], DemoEntries[5..]) == [Leaf9, Leaf3, Leaf4, Leaf7, LeafBar, LeafDash, Leaf5, Leaf0, Leaf8, Leaf2, Leaf1]
  {
    DemoPushed6();
    assert DemoEntries[5..][1..] == DemoEntries[6..];
    assert Leaf(DemoEntries[5..][0]) == Leaf4;
    assert HeapPush([Leaf3, Leaf1, LeafDash, Leaf0, Leaf2], Leaf4) == SiftUp([Leaf3, Leaf1, LeafDash, Leaf0, Leaf2, Leaf4], 5) by {}
    assert SiftUp([Leaf3, Leaf1, LeafDash, Leaf0, Leaf2, Leaf4], 5) == SiftUp([Leaf3, Leaf1, Leaf4, Leaf0, Leaf2, LeafDash], 2) by { assert Swap([Leaf3, Leaf1, LeafDash, Leaf0, Leaf2, Leaf4], 2, 5) == [Leaf3, Leaf1, Leaf4, Leaf0, Leaf2, LeafDash]; }
    assert SiftUp([Leaf3, Leaf1, Leaf4, Leaf0, Leaf2, LeafDash], 2) == [Leaf3, Leaf1, Leaf4, Leaf0, Leaf2, LeafDash] by {}
  }

  lemma DemoPushed4()
    ensures PushLeaves([Leaf1, Leaf2, LeafDash, Leaf0], DemoEntries[4..]) == [Leaf9, Leaf3, Leaf4, Leaf7, LeafBar, LeafDash, Leaf5, Leaf0, Leaf8, Leaf2, Leaf1]
  {
    DemoPushed5();
    assert DemoEntries[4..][1..] == DemoEntries[5..];
    assert Leaf(DemoEntries[4..][0]) == Leaf3;
    assert HeapPush([Leaf1, Leaf2, LeafDash, Leaf0], Leaf3) == SiftUp([Leaf1, Leaf2, LeafDash, Leaf0, Leaf3], 4) by {}
    assert SiftUp([Leaf1, Leaf2, LeafDash, Leaf0, Leaf3], 4) == SiftUp([Leaf1, Leaf3, LeafDash, Leaf0, Leaf2], 1) by { assert Swap([Leaf1, Leaf2, LeafDash, Leaf0, Leaf3], 1, 4) == [Leaf1, Leaf3, LeafDash, Leaf0, Leaf2]; }
    assert SiftUp([Leaf1, Leaf3, LeafDash, Leaf0, Leaf2], 1) == [Leaf3, Leaf1, LeafDash, Leaf0, Leaf2] by { assert Swap([Leaf1, Leaf3, LeafDash, Leaf0, Leaf2], 0, 1) == [Leaf3, Leaf1, LeafDash, Leaf0, Leaf2]; }
  }

  lemma DemoPushed3()
    ensures PushLeaves([Leaf1, Leaf0, LeafDash], DemoEntries[3..]) == [Leaf9, Leaf3, Leaf4, Leaf7, LeafBar, LeafDash, Leaf5, Leaf0, Leaf8, Leaf2, Leaf1]
  {
    DemoPushed4();
    assert DemoEntries[3..][1..] == DemoEntries[4..];
    assert Leaf(DemoEntries[3..][0]) == Leaf2;
    assert HeapPush([Leaf1, Leaf0, LeafDash], Leaf2) == SiftUp([Leaf1, Leaf0, LeafDash, Leaf2], 3) by {}
    assert SiftUp([Leaf1, Leaf0, LeafDash, Leaf2], 3) == SiftUp([Leaf1, Leaf2, LeafDash, Leaf0], 1) by { assert Swap([Leaf1, Leaf0, LeafDash, Leaf2], 1, 3) == [Leaf1, Leaf2, LeafDash, Leaf0]; }
    assert SiftUp([Leaf1, Leaf2, LeafDash, Leaf0], 1) == [Leaf1, Leaf2, LeafDash, Leaf0] by {}
  }

  lemma DemoPushed2()
    ensures PushLeaves([LeafDash, Leaf0], DemoEntries[2..]) == [Leaf9, Leaf3, Leaf4, Leaf7, LeafBar, LeafDash, Leaf5, Leaf0, Leaf8, Leaf2, Leaf1]
  {
    DemoPushed3();
    assert DemoEntries[2..][1..] == DemoEntries[3..];
    assert Leaf(DemoEntries[2..][0]) == Leaf1;
    assert HeapPush([LeafDash, Leaf0], Leaf1) == SiftUp([LeafDash, Leaf0, Leaf1], 2) by {}
    assert SiftUp([LeafDash, Leaf0, Leaf1], 2) == [Leaf1, Leaf0, LeafDash] by { assert Swap([LeafDash, Leaf0, Leaf1], 0, 2) == [Leaf1, Leaf0, LeafDash]; }
  }

  lemma DemoPushed1()
    ensures PushLeaves([LeafDash], DemoEntries[1..]) == [Leaf9, Leaf3, Leaf4, Leaf7, LeafBar, LeafDash, Leaf5, Leaf0, Leaf8, Leaf2, Leaf1]
  {
    DemoPushed2();
    assert DemoEntries[1..][1..] == DemoEntries[2..];
    assert Leaf(DemoEntries[1..][0]) == Leaf0;
    assert HeapPush([LeafDash], Leaf0) == SiftUp([LeafDash, Leaf0], 1) by {}
    assert SiftUp([LeafDash, Leaf0], 1) == [LeafDash, Leaf0] by {}
  }

  lemma DemoPushed0()
    ensures PushLeaves([], DemoEntries[0..]) == [Leaf9, Leaf3, Leaf4, Leaf7, LeafBar, LeafDash, Leaf5, Leaf0, Leaf8, Leaf2, Leaf1]
  {
    DemoPushed1();
    assert DemoEntries[0..][1..] == DemoEntries[1..];
    assert Leaf(DemoEntries[0..][0]) == LeafDash;
    assert HeapPush([], LeafDash) == SiftUp([LeafDash], 0) by {}
    assert SiftUp([LeafDash], 0) == [LeafDash] by {}
  }

  lemma DemoHeapOp1()
    ensures HeapPop([Leaf9, Leaf3, Leaf4, Leaf7, LeafBar, LeafDash, Leaf5, Leaf0, Leaf8, Leaf2, Leaf1]) == (Some(Leaf9), [Leaf3, LeafBar, Leaf4, Leaf7, Leaf1, LeafDash, Leaf5, Leaf0, Leaf8, Leaf2])
  {
    assert HeapPop([Leaf9, Leaf3, Leaf4, Leaf7, LeafBar, LeafDash, Leaf5, Leaf0, Leaf8, Leaf2, Leaf1]) == (Some(Leaf9), SiftDown([Leaf1, Leaf3, Leaf4, Leaf7, LeafBar, LeafDash, Leaf5, Leaf0, Leaf8, Leaf2], 0)) by { assert [Leaf9, Leaf3, Leaf4, Leaf7, LeafBar, LeafDash, Leaf5, Leaf0, Leaf8, Leaf2, Leaf1][..10][0 := Leaf1] == [Leaf1, Leaf3, Leaf4, Leaf7, LeafBar, LeafDash, Leaf5, Leaf0, Leaf8, Leaf2]; }
    assert SiftDown([Leaf1, Leaf3, Leaf4, Leaf7, LeafBar, LeafDash, Leaf5, Leaf0, Leaf8, Leaf2], 0) == SiftDown([Leaf3, Leaf1, Leaf4, Leaf7, LeafBar, LeafDash, Leaf5, Leaf0, Leaf8, Leaf2], 1) by { assert Swap([Leaf1, Leaf3, Leaf4, Leaf7, LeafBar, LeafDash, Leaf5, Leaf0, Leaf8, Leaf2], 0, 1) == [Leaf3, Leaf1, Leaf4, Leaf7, LeafBar, LeafDash, Leaf5, Leaf0, Leaf8, Leaf2]; }
    assert SiftDown([Leaf3, Leaf1, Leaf4, Leaf7, LeafBar, LeafDash, Leaf5, Leaf0, Leaf8, Leaf2], 1) == SiftDown([Leaf3, LeafBar, Leaf4, Leaf7, Leaf1, LeafDash, Leaf5, Leaf0, Leaf8, Leaf2], 4) by { assert Swap([Leaf3, Leaf1, Leaf4, Leaf7, LeafBar, LeafDash, Leaf5, Leaf0, Leaf8, Leaf2], 1, 4) == [Leaf3, LeafBar, Leaf4, Leaf7, Leaf1, LeafDash, Leaf5, Leaf0, Leaf8, Leaf2]; }
    assert SiftDown([Leaf3, LeafBar, Leaf4, Leaf7, Leaf1, LeafDash, Leaf5, Leaf0, Leaf8, Leaf2], 4) == [Leaf3, LeafBar, Leaf4, Leaf7, Leaf1, LeafDash, Leaf5, Leaf0, Leaf8, Leaf2] by {}
  }

  lemma DemoHeapOp2()
    ensures HeapPop([Leaf3, LeafBar, Leaf4, Leaf7, Leaf1, LeafDash, Leaf5, Leaf0, Leaf8, Leaf2]) == (Some(Leaf3), [LeafBar, Leaf2, Leaf4, Leaf7, Leaf1, LeafDash, Leaf5, Leaf0, Leaf8])
  {
    assert HeapPop([Leaf3, LeafBar, Leaf4, Leaf7, Leaf1, LeafDash, Leaf5, Leaf0, Leaf8, Leaf2]) == (Some(Leaf3), SiftDown([Leaf2, LeafBar, Leaf4, Leaf7, Leaf1, LeafDash, Leaf5, Leaf0, Leaf8], 0)) by { assert [Leaf3, LeafBar, Leaf4, Leaf7, Leaf1, LeafDash, Leaf5, Leaf0, Leaf8, Leaf2][..9][0 := Leaf2] == [Leaf2, LeafBar, Leaf4, Leaf7, Leaf1, LeafDash, Leaf5, Leaf0, Leaf8]; }
    assert SiftDown([Leaf2, LeafBar, Leaf4, Leaf7, Leaf1, LeafDash, Leaf5, Leaf0, Leaf8], 0) == SiftDown([LeafBar, Leaf2, Leaf4, Leaf7, Leaf1, LeafDash, Leaf5, Leaf0, Leaf8], 1) by { assert Swap([Leaf2, LeafBar, Leaf4, Leaf7, Leaf1, LeafDash, Leaf5, Leaf0, Leaf8], 0, 1) == [LeafBar, Leaf2, Leaf4, Leaf7, Leaf1, LeafDash, Leaf5, Leaf0, Leaf8]; }
    assert SiftDown([LeafBar, Leaf2, Leaf4, Leaf7, Leaf1, LeafDash, Leaf5, Leaf0, Leaf8], 1) == [LeafBar, Leaf2, Leaf4, Leaf7, Leaf1, LeafDash, Leaf5, Leaf0, Leaf8] by {}
  }

  lemma DemoHeapOp3()
    ensures HeapPush([LeafBar, Leaf2, Leaf4, Leaf7, Leaf1, LeafDash, Leaf5, Leaf0, Leaf8], Join1) == [LeafBar, Leaf2, Leaf4, Leaf7, Leaf1, LeafDash, Leaf5, Leaf0, Leaf8, Join1]
  {
    assert HeapPush([LeafBar, Leaf2, Leaf4, Leaf7, Leaf1, LeafDash, Leaf5, Leaf0, Leaf8], Join1) == SiftUp([LeafBar, Leaf2, Leaf4, Leaf7, Leaf1, LeafDash, Leaf5, Leaf0, Leaf8, Join1], 9) by {}
    assert SiftUp([LeafBar, Leaf2, Leaf4, Leaf7, Leaf1, LeafDash, Leaf5, Leaf0, Leaf8, Join1], 9) == [LeafBar, Leaf2, Leaf4, Leaf7, Leaf1, LeafDash, Leaf5, Leaf0, Leaf8, Join1] by {}
  }

  lemma DemoMerged1()
    ensures Combine([Leaf9, Leaf3, Leaf4, Leaf7, LeafBar, LeafDash, Leaf5, Leaf0, Leaf8, Leaf2, Leaf1]) == Combine([LeafBar, Leaf2, Leaf4, Leaf7, Leaf1, LeafDash, Leaf5, Leaf0, Leaf8, Join1])
  {
    DemoHeapOp1();
    DemoHeapOp2();
    DemoHeapOp3();
    assert Join(Leaf9, Leaf3) == Join1;
  }

  lemma DemoHeapOp4()
    ensures HeapPop([LeafBar, Leaf2, Leaf4, Leaf7, Leaf1, LeafDash, Leaf5, Leaf0, Leaf8, Join1]) == (Some(LeafBar), [Leaf4, Leaf2, Join1, Leaf7, Leaf1, LeafDash, Leaf5, Leaf0, Leaf8])
  {
    assert HeapPop([LeafBar, Leaf2, Leaf4, Leaf7, Leaf1, LeafDash, Leaf5, Leaf0, Leaf8, Join1]) == (Some(LeafBar), SiftDown([Join1, Leaf2, Leaf4, Leaf7, Leaf1, LeafDash, Leaf5, Leaf0, Leaf8], 0)) by { assert [LeafBar, Leaf2, Leaf4, Leaf7, Leaf1, LeafDash, Leaf5, Leaf0, Leaf8, Join1][..9][0 := Join1] == [Join1, Leaf2, Leaf4, Leaf7, Leaf1, LeafDash, Leaf5, Leaf0, Leaf8]; }
    assert SiftDown([Join1, Leaf2, Leaf4, Leaf7, Leaf1, LeafDash, Leaf5, Leaf0, Leaf8], 0) == SiftDown([Leaf4, Leaf2, Join1, Leaf7, Leaf1, LeafDash, Leaf5, Leaf0, Leaf8], 2) by { assert Swap([Join1, Leaf2, Leaf4, Leaf7, Leaf1, LeafDash, Leaf5, Leaf0, Leaf8], 0, 2) == [Leaf4, Leaf2, Join1, Leaf7, Leaf1, LeafDash, Leaf5, Leaf0, Leaf8]; }
    assert SiftDown([Leaf4, Leaf2, Join1, Leaf7, Leaf1, LeafDash, Leaf5, Leaf0, Leaf8], 2) == [Leaf4, Leaf2, Join1, Leaf7, Leaf1, LeafDash, Leaf5, Leaf0, Leaf8] by {}
  }

  lemma DemoHeapOp5()
    ensures HeapPop([Leaf4, Leaf2, Join1, Leaf7, Leaf1, LeafDash, Leaf5, Leaf0, Leaf8]) == (Some(Leaf4), [Leaf2, Leaf7, Join1, Leaf8, Leaf1, LeafDash, Leaf5, Leaf0])
  {
    assert HeapPop([Leaf4, Leaf2, Join1, Leaf7, Leaf1, LeafDash, Leaf5, Leaf0, Leaf8]) == (Some(Leaf4), SiftDown([Leaf8, Leaf2, Join1, Leaf7, Leaf1, LeafDash, Leaf5, Leaf0], 0)) by { assert [Leaf4, Leaf2, Join1, Leaf7, Leaf1, LeafDash, Leaf5, Leaf0, Leaf8][..8][0 := Leaf8] == [Leaf8, Leaf2, Join1, Leaf7, Leaf1, LeafDash, Leaf5, Leaf0]; }
    assert SiftDown([Leaf8, Leaf2, Join1, Leaf7, Leaf1, LeafDash, Leaf5, Leaf0], 0) == SiftDown([Leaf2, Leaf8, Join1, Leaf7, Leaf1, LeafDash, Leaf5, Leaf0], 1) by { assert Swap([Leaf8, Leaf2, Join1, Leaf7, Leaf1, LeafDash, Leaf5, Leaf0], 0, 1) == [Leaf2, Leaf8, Join1, Leaf7, Leaf1, LeafDash, Leaf5, Leaf0]; }
    assert SiftDown([Leaf2, Leaf8, Join1, Leaf7, Leaf1, LeafDash, Leaf5, Leaf0], 1) == SiftDown([Leaf2, Leaf7, Join1, Leaf8, Leaf1, LeafDash, Leaf5, Leaf0], 3) by { assert Swap([Leaf2, Leaf8, Join1, Leaf7, Leaf1, LeafDash, Leaf5, Leaf0], 1, 3) == [Leaf2, Leaf7, Join1, Leaf8, Leaf1, LeafDash, Leaf5, Leaf0]; }
    assert SiftDown([Leaf2, Leaf7, Join1, Leaf8, Leaf1, LeafDash, Leaf5, Leaf0], 3) == [Leaf2, Leaf7, Join1, Leaf8, Leaf1, LeafDash, Leaf5, Leaf0] by {}
  }

  lemma DemoHeapOp6()
    ensures HeapPush([Leaf2, Leaf7, Join1, Leaf8, Leaf1, LeafDash, Leaf5, Leaf0], Join2) == [Leaf2, Leaf7, Join1, Leaf8, Leaf1, LeafDash, Leaf5, Leaf0, Join2]
  {
    assert HeapPush([Leaf2, Leaf7, Join1, Leaf8, Leaf1, LeafDash, Leaf5, Leaf0], Join2) == SiftUp([Leaf2, Leaf7, Join1, Leaf8, Leaf1, LeafDash, Leaf5, Leaf0, Join2], 8) by {}
    assert SiftUp([Leaf2, Leaf7, Join1, Leaf8, Leaf1, LeafDash, Leaf5, Leaf0, Join2], 8) == [Leaf2, Leaf7, Join1, Leaf8, Leaf1, LeafDash, Leaf5, Leaf0, Join2] by {}
  }

  lemma DemoMerged2()
    ensures Combine([LeafBar, Leaf2, Leaf4, Leaf7, Leaf1, LeafDash, Leaf5, Leaf0, Leaf8, Join1]) == Combine([Leaf2, Leaf7, Join1, Leaf8, Leaf1, LeafDash, Leaf5, Leaf0, Join2])
  {
    DemoHeapOp4();
    DemoHeapOp5();
    DemoHeapOp6();
    assert Join(LeafBar, Leaf4) == Join2;
  }

  lemma DemoHeapOp7()
    ensures HeapPop([Leaf2, Leaf7, Join1, Leaf8, Leaf1, LeafDash, Leaf5, Leaf0, Join2]) == (Some(Leaf2), [Leaf7, Leaf1, Join1, Leaf8, Join2, LeafDash, Leaf5, Leaf0])
  {
    assert HeapPop([Leaf2, Leaf7, Join1, Leaf8, Leaf1, LeafDash, Leaf5, Leaf0, Join2]) == (Some(Leaf2), SiftDown([Join2, Leaf7, Join1, Leaf8, Leaf1, LeafDash, Leaf5, Leaf0], 0)) by { assert [Leaf2, Leaf7, Join1, Leaf8, Leaf1, LeafDash, Leaf5, Leaf0, Join2][..8][0 := Join2] == [Join2, Leaf7, Join1, Leaf8, Leaf1, LeafDash, Leaf5, Leaf0]; }
    assert SiftDown([Join2, Leaf7, Join1, Leaf8, Leaf1, LeafDash, Leaf5, Leaf0], 0) == SiftDown([Leaf7, Join2, Join1, Leaf8, Leaf1, LeafDash, Leaf5, Leaf0], 1) by { assert Swap([Join2, Leaf7, Join1, Leaf8, Leaf1, LeafDash, Leaf5, Leaf0], 0, 1) == [Leaf7, Join2, Join1, Leaf8, Leaf1, LeafDash, Leaf5, Leaf0]; }
    assert SiftDown([Leaf7, Join2, Join1, Leaf8, Leaf1, LeafDash, Leaf5, Leaf0], 1) == SiftDown([Leaf7, Leaf1, Join1, Leaf8, Join2, LeafDash, Leaf5, Leaf0], 4) by { assert Swap([Leaf7, Join2, Join1, Leaf8, Leaf1, LeafDash, Leaf5, Leaf0], 1, 4) == [Leaf7, Leaf1, Join1, Leaf8, Join2, LeafDash, Leaf5, Leaf0]; }
    assert SiftDown([Leaf7, Leaf1, Join1, Leaf8, Join2, LeafDash, Leaf5, Leaf0], 4) == [Leaf7, Leaf1, Join1, Leaf8, Join2, LeafDash, Leaf5, Leaf0] by {}
  }

  lemma DemoHeapOp8()
    ensures HeapPop([Leaf7, Leaf1, Join1, Leaf8, Join2, LeafDash, Leaf5, Leaf0]) == (Some(Leaf7), [Leaf1, Leaf8, Join1, Leaf0, Join2, LeafDash, Leaf5])
  {
    assert HeapPop([Leaf7, Leaf1, Join1, Leaf8, Join2, LeafDash, Leaf5, Leaf0]) == (Some(Leaf7), SiftDown([Leaf0, Leaf1, Join1, Leaf8, Join2, LeafDash, Leaf5], 0)) by { assert [Leaf7, Leaf1, Join1, Leaf8, Join2, LeafDash, Leaf5, Leaf0][..7][0 := Leaf0] == [Leaf0, Leaf1, Join1, Leaf8, Join2, LeafDash, Leaf5]; }
    assert SiftDown([Leaf0, Leaf1, Join1, Leaf8, Join2, LeafDash, Leaf5], 0) == SiftDown([Leaf1, Leaf0, Join1, Leaf8, Join2, LeafDash, Leaf5], 1) by { assert Swap([Leaf0, Leaf1, Join1, Leaf8, Join2, LeafDash, Leaf5], 0, 1) == [Leaf1, Leaf0, Join1, Leaf8, Join2, LeafDash, Leaf5]; }
    assert SiftDown([Leaf1, Leaf0, Join1, Leaf8, Join2, LeafDash, Leaf5], 1) == SiftDown([Leaf1, Leaf8, Join1, Leaf0, Join2, LeafDash, Leaf5], 3) by { assert Swap([Leaf1, Leaf0, Join1, Leaf8, Join2, LeafDash, Leaf5], 1, 3) == [Leaf1, Leaf8, Join1, Leaf0, Join2, LeafDash, Leaf5]; }
    assert SiftDown([Leaf1, Leaf8, Join1, Leaf0, Join2, LeafDash, Leaf5], 3) == [Leaf1, Leaf8, Join1, Leaf0, Join2, LeafDash, Leaf5] by {}
  }

  lemma DemoHeapOp9()
    ensures HeapPush([Leaf1, Leaf8, Join1, Leaf0, Join2, LeafDash, Leaf5], Join3) == [Leaf1, Leaf8, Join1, Join3, Join2, LeafDash, Leaf5, Leaf0]
  {
    assert HeapPush([Leaf1, Leaf8, Join1, Leaf0, Join2, LeafDash, Leaf5], Join3) == SiftUp([Leaf1, Leaf8, Join1, Leaf0, Join2, LeafDash, Leaf5, Join3], 7) by {}
    assert SiftUp([Leaf1, Leaf8, Join1, Leaf0, Join2, LeafDash, Leaf5, Join3], 7) == SiftUp([Leaf1, Leaf8, Join1, Join3, Join2, LeafDash, Leaf5, Leaf0], 3) by { assert Swap([Leaf1, Leaf8, Join1, Leaf0, Join2, LeafDash, Leaf5, Join3], 3, 7) == [Leaf1, Leaf8, Join1, Join3, Join2, LeafDash, Leaf5, Leaf0]; }
    assert SiftUp([Leaf1, Leaf8, Join1, Join3, Join2, LeafDash, Leaf5, Leaf0], 3) == [Leaf1, Leaf8, Join1, Join3, Join2, LeafDash, Leaf5, Leaf0] by {}
  }

  lemma DemoMerged3()
    ensures Combine([Leaf2, Leaf7, Join1, Leaf8, Leaf1, LeafDash, Leaf5, Leaf0, Join2]) == Combine([Leaf1, Leaf8, Join1, Join3, Join2, LeafDash, Leaf5, Leaf0])
  {
    DemoHeapOp7();
    DemoHeapOp8();
    DemoHeapOp9();
    assert Join(Leaf2, Leaf7) == Join3;
  }

  lemma DemoHeapOp10()
    ensures HeapPop([Leaf1, Leaf8, Join1, Join3, Join2, LeafDash, Leaf5, Leaf0]) == (Some(Leaf1), [Join1, Leaf8, LeafDash, Join3, Join2, Leaf0, Leaf5])
  {
    assert HeapPop([Leaf1, Leaf8, Join1, Join3, Join2, LeafDash, Leaf5, Leaf0]) == (Some(Leaf1), SiftDown([Leaf0, Leaf8, Join1, Join3, Join2, LeafDash, Leaf5], 0)) by { assert [Leaf1, Leaf8, Join1, Join3, Join2, LeafDash, Leaf5, Leaf0][..7][0 := Leaf0] == [Leaf0, Leaf8, Join1, Join3, Join2, LeafDash, Leaf5]; }
    assert SiftDown([Leaf0, Leaf8, Join1, Join3, Join2, LeafDash, Leaf5], 0) == SiftDown([Join1, Leaf8, Leaf0, Join3, Join2, LeafDash, Leaf5], 2) by { assert Swap([Leaf0, Leaf8, Join1, Join3, Join2, LeafDash, Leaf5], 0, 2) == [Join1, Leaf8, Leaf0, Join3, Join2, LeafDash, Leaf5]; }
    assert SiftDown([Join1, Leaf8, Leaf0, Join3, Join2, LeafDash, Leaf5], 2) == SiftDown([Join1, Leaf8, LeafDash, Join3, Join2, Leaf0, Leaf5], 5) by { assert Swap([Join1, Leaf8, Leaf0, Join3, Join2, LeafDash, Leaf5], 2, 5) == [Join1, Leaf8, LeafDash, Join3, Join2, Leaf0, Leaf5]; }
    assert SiftDown([Join1, Leaf8, LeafDash, Join3, Join2, Leaf0, Leaf5], 5) == [Join1, Leaf8, LeafDash, Join3, Join2, Leaf0, Leaf5] by {}
  }

  lemma DemoHeapOp11()
    ensures HeapPop([Join1, Leaf8, LeafDash, Join3, Join2, Leaf0, Leaf5]) == (Some(Join1), [Leaf8, Join2, LeafDash, Join3, Leaf5, Leaf0])
  {
    assert HeapPop([Join1, Leaf8, LeafDash, Join3, Join2, Leaf0, Leaf5]) == (Some(Join1), SiftDown([Leaf5, Leaf8, LeafDash, Join3, Join2, Leaf0], 0)) by { assert [Join1, Leaf8, LeafDash, Join3, Join2, Leaf0, Leaf5][..6][0 := Leaf5] == [Leaf5, Leaf8, LeafDash, Join3, Join2, Leaf0]; }
    assert SiftDown([Leaf5, Leaf8, LeafDash, Join3, Join2, Leaf0], 0) == SiftDown([Leaf8, Leaf5, LeafDash, Join3, Join2, Leaf0], 1) by { assert Swap([Leaf5, Leaf8, LeafDash, Join3, Join2, Leaf0], 0, 1) == [Leaf8, Leaf5, LeafDash, Join3, Join2, Leaf0]; }
    assert SiftDown([Leaf8, Leaf5, LeafDash, Join3, Join2, Leaf0], 1) == SiftDown([Leaf8, Join2, LeafDash, Join3, Leaf5, Leaf0], 4) by { assert Swap([Leaf8, Leaf5, LeafDash, Join3, Join2, Leaf0], 1, 4) == [Leaf8, Join2, LeafDash, Join3, Leaf5, Leaf0]; }
    assert SiftDown([Leaf8, Join2, LeafDash, Join3, Leaf5, Leaf0], 4) == [Leaf8, Join2, LeafDash, Join3, Leaf5, Leaf0] by {}
  }

  lemma DemoHeapOp12()
    ensures HeapPush([Leaf8, Join2, LeafDash, Join3, Leaf5, Leaf0], Join4) == [Leaf8, Join2, LeafDash, Join3, Leaf5, Leaf0, Join4]
  {
    assert HeapPush([Leaf8, Join2, LeafDash, Join3, Leaf5, Leaf0], Join4) == SiftUp([Leaf8, Join2, LeafDash, Join3, Leaf5, Leaf0, Join4], 6) by {}
    assert SiftUp([Leaf8, Join2, LeafDash, Join3, Leaf5, Leaf0, Join4], 6) == [Leaf8, Join2, LeafDash, Join3, Leaf5, Leaf0, Join4] by {}
  }

  lemma DemoMerged4()
    ensures Combine([Leaf1, Leaf8, Join1, Join3, Join2, LeafDash, Leaf5, Leaf0]) == Combine([Leaf8, Join2, LeafDash, Join3, Leaf5, Leaf0, Join4])
  {
    DemoHeapOp10();
    DemoHeapOp11();
    DemoHeapOp12();
    assert Join(Leaf1, Join1) == Join4;
  }

  lemma DemoHeapOp13()
    ensures HeapPop([Leaf8, Join2, LeafDash, Join3, Leaf5, Leaf0, Join4]) == (Some(Leaf8), [Join2, Join4, LeafDash, Join3, Leaf5, Leaf0])
  {
    assert HeapPop([Leaf8, Join2, LeafDash, Join3, Leaf5, Leaf0, Join4]) == (Some(Leaf8), SiftDown([Join4, Join2, LeafDash, Join3, Leaf5, Leaf0], 0)) by { assert [Leaf8, Join2, LeafDash, Join3, Leaf5, Leaf0, Join4][..6][0 := Join4] == [Join4, Join2, LeafDash, Join3, Leaf5, Leaf0]; }
    assert SiftDown([Join4, Join2, LeafDash, Join3, Leaf5, Leaf0], 0) == SiftDown([Join2, Join4, LeafDash, Join3, Leaf5, Leaf0], 1) by { assert Swap([Join4, Join2, LeafDash, Join3, Leaf5, Leaf0], 0, 1) == [Join2, Join4, LeafDash, Join3, Leaf5, Leaf0]; }
    assert SiftDown([Join2, Join4, LeafDash, Join3, Leaf5, Leaf0], 1) == [Join2, Join4, LeafDash, Join3, Leaf5, Leaf0] by {}
  }

  lemma DemoHeapOp14()
    ensures HeapPop([Join2, Join4, LeafDash, Join3, Leaf5, Leaf0]) == (Some(Join2), [Join4, Join3, LeafDash, Leaf0, Leaf5])
  {
    assert HeapPop([Join2, Join4, LeafDash, Join3, Leaf5, Leaf0]) == (Some(Join2), SiftDown([Leaf0, Join4, LeafDash, Join3, Leaf5], 0)) by { assert [Join2, Join4, LeafDash, Join3, Leaf5, Leaf0][..5][0 := Leaf0] == [Leaf0, Join4, LeafDash, Join3, Leaf5]; }
    assert SiftDown([Leaf0, Join4, LeafDash, Join3, Leaf5], 0) == SiftDown([Join4, Leaf0, LeafDash, Join3, Leaf5], 1) by { assert Swap([Leaf0, Join4, LeafDash, Join3, Leaf5], 0, 1) == [Join4, Leaf0, LeafDash, Join3, Leaf5]; }
    assert SiftDown([Join4, Leaf0, LeafDash, Join3, Leaf5], 1) == SiftDown([Join4, Join3, LeafDash, Leaf0, Leaf5], 3) by { assert Swap([Join4, Leaf0, LeafDash, Join3, Leaf5], 1, 3) == [Join4, Join3, LeafDash, Leaf0, Leaf5]; }
    assert SiftDown([Join4, Join3, LeafDash, Leaf0, Leaf5], 3) == [Join4, Join3, LeafDash, Leaf0, Leaf5] by {}
  }

  lemma DemoHeapOp15()
    ensures HeapPush([Join4, Join3, LeafDash, Leaf0, Leaf5], Join5) == [Join4, Join3, LeafDash, Leaf0, Leaf5, Join5]
  {
    assert HeapPush([Join4, Join3, LeafDash, Leaf0, Leaf5], Join5) == SiftUp([Join4, Join3, LeafDash, Leaf0, Leaf5, Join5], 5) by {}
    assert SiftUp([Join4, Join3, LeafDash, Leaf0, Leaf5, Join5], 5) == [Join4, Join3, LeafDash, Leaf0, Leaf5, Join5] by {}
  }

  lemma DemoMerged5()
    ensures Combine([Leaf8, Join2, LeafDash, Join3, Leaf5, Leaf0, Join4]) == Combine([Join4, Join3, LeafDash, Leaf0, Leaf5, Join5])
  {
    DemoHeapOp13();
    DemoHeapOp14();
    DemoHeapOp15();
    assert Join(Leaf8, Join2) == Join5;
  }

  lemma DemoHeapOp16()
    ensures HeapPop([Join4, Join3, LeafDash, Leaf0, Leaf5, Join5]) == (Some(Join4), [Join3, Leaf5, LeafDash, Leaf0, Join5])
  {
    assert HeapPop([Join4, Join3, LeafDash, Leaf0, Leaf5, Join5]) == (Some(Join4), SiftDown([Join5, Join3, LeafDash, Leaf0, Leaf5], 0)) by { assert [Join4, Join3, LeafDash, Leaf0, Leaf5, Join5][..5][0 := Join5] == [Join5, Join3, LeafDash, Leaf0, Leaf5]; }
    assert SiftDown([Join5, Join3, LeafDash, Leaf0, Leaf5], 0) == SiftDown([Join3, Join5, LeafDash, Leaf0, Leaf5], 1) by { assert Swap([Join5, Join3, LeafDash, Leaf0, Leaf5], 0, 1) == [Join3, Join5, LeafDash, Leaf0, Leaf5]; }
    assert SiftDown([Join3, Join5, LeafDash, Leaf0, Leaf5], 1) == SiftDown([Join3, Leaf5, LeafDash, Leaf0, Join5], 4) by { assert Swap([Join3, Join5, LeafDash, Leaf0, Leaf5], 1, 4) == [Join3, Leaf5, LeafDash, Leaf0, Join5]; }
    assert SiftDown([Join3, Leaf5, LeafDash, Leaf0, Join5], 4) == [Join3, Leaf5, LeafDash, Leaf0, Join5] by {}
  }

  lemma DemoHeapOp17()
    ensures HeapPop([Join3, Leaf5, LeafDash, Leaf0, Join5]) == (Some(Join3), [Leaf5, Join5, LeafDash, Leaf0])
  {
    assert HeapPop([Join3, Leaf5, LeafDash, Leaf0, Join5]) == (Some(Join3), SiftDown([Join5, Leaf5, LeafDash, Leaf0], 0)) by { assert [Join3, Leaf5, LeafDash, Leaf0, Join5][..4][0 := Join5] == [Join5, Leaf5, LeafDash, Leaf0]; }
    assert SiftDown([Join5, Leaf5, LeafDash, Leaf0], 0) == SiftDown([Leaf5, Join5, LeafDash, Leaf0], 1) by { assert Swap([Join5, Leaf5, LeafDash, Leaf0], 0, 1) == [Leaf5, Join5, LeafDash, Leaf0]; }
    assert SiftDown([Leaf5, Join5, LeafDash, Leaf0], 1) == [Leaf5, Join5, LeafDash, Leaf0] by {}
  }

  lemma DemoHeapOp18()
    ensures HeapPush([Leaf5, Join5, LeafDash, Leaf0], Join6) == [Leaf5, Join5, LeafDash, Leaf0, Join6]
  {
    assert HeapPush([Leaf5, Join5, LeafDash, Leaf0], Join6) == SiftUp([Leaf5, Join5, LeafDash, Leaf0, Join6], 4) by {}
    assert SiftUp([Leaf5, Join5, LeafDash, Leaf0, Join6], 4) == [Leaf5, Join5, LeafDash, Leaf0, Join6] by {}
  }

  lemma DemoMerged6()
    ensures Combine([Join4, Join3, LeafDash, Leaf0, Leaf5, Join5]) == Combine([Leaf5, Join5, LeafDash, Leaf0, Join6])
  {
    DemoHeapOp16();
    DemoHeapOp17();
    DemoHeapOp18();
    assert Join(Join4, Join3) == Join6;
  }

  lemma DemoHeapOp19()
    ensures HeapPop([Leaf5, Join5, LeafDash, Leaf0, Join6]) == (Some(Leaf5), [LeafDash, Join5, Join6, Leaf0])
  {
    assert HeapPop([Leaf5, Join5, LeafDash, Leaf0, Join6]) == (Some(Leaf5), SiftDown([Join6, Join5, LeafDash, Leaf0], 0)) by { assert [Leaf5, Join5, LeafDash, Leaf0, Join6][..4][0 := Join6] == [Join6, Join5, LeafDash, Leaf0]; }
    assert SiftDown([Join6, Join5, LeafDash, Leaf0], 0) == SiftDown([LeafDash, Join5, Join6, Leaf0], 2) by { assert Swap([Join6, Join5, LeafDash, Leaf0], 0, 2) == [LeafDash, Join5, Join6, Leaf0]; }
    assert SiftDown([LeafDash, Join5, Join6, Leaf0], 2) == [LeafDash, Join5, Join6, Leaf0] by {}
  }

  lemma DemoHeapOp20()
    ensures HeapPop([LeafDash, Join5, Join6, Leaf0]) == (Some(LeafDash), [Join5, Leaf0, Join6])
  {
    assert HeapPop([LeafDash, Join5, Join6, Leaf0]) == (Some(LeafDash), SiftDown([Leaf0, Join5, Join6], 0)) by { assert [LeafDash, Join5, Join6, Leaf0][..3][0 := Leaf0] == [Leaf0, Join5, Join6]; }
    assert SiftDown([Leaf0, Join5, Join6], 0) == SiftDown([Join5, Leaf0, Join6], 1) by { assert Swap([Leaf0, Join5, Join6], 0, 1) == [Join5, Leaf0, Join6]; }
    assert SiftDown([Join5, Leaf0, Join6], 1) == [Join5, Leaf0, Join6] by {}
  }

  lemma DemoHeapOp21()
    ensures HeapPush([Join5, Leaf0, Join6], Join7) == [Join5, Leaf0, Join6, Join7]
  {
    assert HeapPush([Join5, Leaf0, Join6], Join7) == SiftUp([Join5, Leaf0, Join6, Join7], 3) by {}
    assert SiftUp([Join5, Leaf0, Join6, Join7], 3) == [Join5, Leaf0, Join6, Join7] by {}
  }

  lemma DemoMerged7()
    ensures Combine([Leaf5, Join5, LeafDash, Leaf0, Join6]) == Combine([Join5, Leaf0, Join6, Join7])
  {
    DemoHeapOp19();
    DemoHeapOp20();
    DemoHeapOp21();
    assert Join(Leaf5, LeafDash) == Join7;
  }

  lemma DemoHeapOp22()
    ensures HeapPop([Join5, Leaf0, Join6, Join7]) == (Some(Join5), [Leaf0, Join7, Join6])
  {
    assert HeapPop([Join5, Leaf0, Join6, Join7]) == (Some(Join5), SiftDown([Join7, Leaf0, Join6], 0)) by { assert [Join5, Leaf0, Join6, Join7][..3][0 := Join7] == [Join7, Leaf0, Join6]; }
    assert SiftDown([Join7, Leaf0, Join6], 0) == SiftDown([Leaf0, Join7, Join6], 1) by { assert Swap([Join7, Leaf0, Join6], 0, 1) == [Leaf0, Join7, Join6]; }
    assert SiftDown([Leaf0, Join7, Join6], 1) == [Leaf0, Join7, Join6] by {}
  }

  lemma DemoHeapOp23()
    ensures HeapPop([Leaf0, Join7, Join6]) == (Some(Leaf0), [Join6, Join7])
  {
    assert HeapPop([Leaf0, Join7, Join6]) == (Some(Leaf0), SiftDown([Join6, Join7], 0)) by { assert [Leaf0, Join7, Join6][..2][0 := Join6] == [Join6, Join7]; }
    assert SiftDown([Join6, Join7], 0) == [Join6, Join7] by {}
  }

  lemma DemoHeapOp24()
    ensures HeapPush([Join6, Join7], Join8) == [Join6, Join7, Join8]
  {
    assert HeapPush([Join6, Join7], Join8) == SiftUp([Join6, Join7, Join8], 2) by {}
    assert SiftUp([Join6, Join7, Join8], 2) == [Join6, Join7, Join8] by {}
  }

  lemma DemoMerged8()
    ensures Combine([Join5, Leaf0, Join6, Join7]) == Combine([Join6, Join7, Join8])
  {
    DemoHeapOp22();
    DemoHeapOp23();
    DemoHeapOp24();
    assert Join(Join5, Leaf0) == Join8;
  }

  lemma DemoHeapOp25()
    ensures HeapPop([Join6, Join7, Join8]) == (Some(Join6), [Join7, Join8])
  {
    assert HeapPop([Join6, Join7, Join8]) == (Some(Join6), SiftDown([Join8, Join7], 0)) by { assert [Join6, Join7, Join8][..2][0 := Join8] == [Join8, Join7]; }
    assert SiftDown([Join8, Join7], 0) == SiftDown([Join7, Join8], 1) by { assert Swap([Join8, Join7], 0, 1) == [Join7, Join8]; }
    assert SiftDown([Join7, Join8], 1) == [Join7, Join8] by {}
  }

  lemma DemoHeapOp26()
    ensures HeapPop([Join7, Join8]) == (Some(Join7), [Join8])
  {
    assert HeapPop([Join7, Join8]) == (Some(Join7), SiftDown([Join8], 0)) by { assert [Join7, Join8][..1][0 := Join8] == [Join8]; }
    assert SiftDown([Join8], 0) == [Join8] by {}
  }

  lemma DemoHeapOp27()
    ensures HeapPush([Join8], Join9) == [Join8, Join9]
  {
    assert HeapPush([Join8], Join9) == SiftUp([Join8, Join9], 1) by {}
    assert SiftUp([Join8, Join9], 1) == [Join8, Join9] by {}
  }

  lemma DemoMerged9()
    ensures Combine([Join6, Join7, Join8]) == Combine([Join8, Join9])
  {
    DemoHeapOp25();
    DemoHeapOp26();
    DemoHeapOp27();
    assert Join(Join6, Join7) == Join9;
  }

  lemma DemoHeapOp28()
    ensures HeapPop([Join8, Join9]) == (Some(Join8), [Join9])
  {
    assert HeapPop([Join8, Join9]) == (Some(Join8), SiftDown([Join9], 0)) by { assert [Join8, Join9][..1][0 := Join9] == [Join9]; }
    assert SiftDown([Join9], 0) == [Join9] by {}
  }

  lemma DemoHeapOp29()
    ensures HeapPop([Join9]) == (Some(Join9), [])
  {
    assert HeapPop([Join9]) == (Some(Join9), []) by {}
  }

  lemma DemoHeapOp30()
    ensures HeapPush([], Join10) == [Join10]
  {
    assert HeapPush([], Join10) == SiftUp([Join10], 0) by {}
    assert SiftUp([Join10], 0) == [Join10] by {}
  }

  lemma DemoMerged10()
    ensures Combine([Join8, Join9]) == Combine([Join10])
  {
    DemoHeapOp28();
    DemoHeapOp29();
    DemoHeapOp30();
    assert Join(Join8, Join9) == Join10;
  }

  lemma DemoWalk0()
    ensures WalkSymbol(DemoTree, DemoPayload, 133, 0) == Reached(53, 3)
  {
    BitAtParts(DemoPayload, 0, 0, 0, 0, true, 83);
    assert WalkSymbol(Join10, DemoPayload, 133, 0) == WalkSymbol(Join9, DemoPayload, 133, 1);
    BitAtParts(DemoPayload, 1, 0, 1, 1, true, 19);
    assert WalkSymbol(Join9, DemoPayload, 133, 1) == WalkSymbol(Join7, DemoPayload, 133, 2);
    BitAtParts(DemoPayload, 2, 0, 2, 3, false, 19);
    assert WalkSymbol(Join7, DemoPayload, 133, 2) == WalkSymbol(Leaf5, DemoPayload, 133, 3);
  }

  lemma DemoSymbol0()
    ensures DecodeFrom(DemoTree, DemoPayload, 133, 0, DemoOutput[..0]) == DecodeFrom(DemoTree, DemoPayload, 133, 3, DemoOutput[..1])
  {
    DemoWalk0();
    assert DemoOutput[0] == 53;
    assert DemoOutput[..0] + [DemoOutput[0]] == DemoOutput[..1];
  }

  lemma DemoWalk1()
    ensures WalkSymbol(DemoTree, DemoPayload, 133, 3) == Reached(51, 8)
  {
    BitAtParts(DemoPayload, 3, 0, 3, 6, true, 3);
    assert WalkSymbol(Join10, DemoPayload, 133, 3) == WalkSymbol(Join9, DemoPayload, 133, 4);
    BitAtParts(DemoPayload, 4, 0, 4, 13, false, 3);
    assert WalkSymbol(Join9, DemoPayload, 133, 4) == WalkSymbol(Join6, DemoPayload, 133, 5);
    BitAtParts(DemoPayload, 5, 0, 5, 26, false, 3);
    assert WalkSymbol(Join6, DemoPayload, 133, 5) == WalkSymbol(Join4, DemoPayload, 133, 6);
    BitAtParts(DemoPayload, 6, 0, 6, 52, true, 1);
    assert WalkSymbol(Join4, DemoPayload, 133, 6) == WalkSymbol(Join1, DemoPayload, 133, 7);
    BitAtParts(DemoPayload, 7, 0, 7, 105, true, 0);
    assert WalkSymbol(Join1, DemoPayload, 133, 7) == WalkSymbol(Leaf3, DemoPayload, 133, 8);
  }

  lemma DemoSymbol1()
    ensures DecodeFrom(DemoTree, DemoPayload, 133, 3, DemoOutput[..1]) == DecodeFrom(DemoTree, DemoPayload, 133, 8, DemoOutput[..2])
  {
    DemoWalk1();
    assert DemoOutput[1] == 51;
    assert DemoOutput[..1] + [DemoOutput[1]] == DemoOutput[..2];
  }

  lemma DemoWalk2()
    ensures WalkSymbol(DemoTree, DemoPayload, 133, 8) == Reached(56, 11)
  {
    BitAtParts(DemoPayload, 8, 1, 0, 0, false, 12);
    assert WalkSymbol(Join10, DemoPayload, 133, 8) == WalkSymbol(Join8, DemoPayload, 133, 9);
    BitAtParts(DemoPayload, 9, 1, 1, 0, false, 12);
    assert WalkSymbol(Join8, DemoPayload, 133, 9) == WalkSymbol(Join5, DemoPayload, 133, 10);
    BitAtParts(DemoPayload, 10, 1, 2, 0, false, 12);
    assert WalkSymbol(Join5, DemoPayload, 133, 10) == WalkSymbol(Leaf8, DemoPayload, 133, 11);
  }

  lemma DemoSymbol2()
    ensures DecodeFrom(DemoTree, DemoPayload, 133, 8, DemoOutput[..2]) == DecodeFrom(DemoTree, DemoPayload, 133, 11, DemoOutput[..3])
  {
    DemoWalk2();
    assert DemoOutput[2] == 56;
    assert DemoOutput[..2] + [DemoOutput[2]] == DemoOutput[..3];
  }

  lemma DemoWalk3()
    ensures WalkSymbol(DemoTree, DemoPayload, 133, 11) == Reached(48, 13)
  {
    BitAtParts(DemoPayload, 11, 1, 3, 0, false, 12);
    assert WalkSymbol(Join10, DemoPayload, 133, 11) == WalkSymbol(Join8, DemoPayload, 133, 12);
    BitAtParts(DemoPayload, 12, 1, 4, 0, true, 4);
    assert WalkSymbol(Join8, DemoPayload, 133, 12) == WalkSymbol(Leaf0, DemoPayload, 133, 13);
  }

  lemma DemoSymbol3()
    ensures DecodeFrom(DemoTree, DemoPayload, 133, 11, DemoOutput[..3]) == DecodeFrom(DemoTree, DemoPayload, 133, 13, DemoOutput[..4])
  {
    DemoWalk3();
    assert DemoOutput[3] == 48;
    assert DemoOutput[..3] + [DemoOutput[3]] == DemoOutput[..4];
  }

  lemma DemoWalk4()
    ensures WalkSymbol(DemoTree, DemoPayload, 133, 13) == Reached(49, 17)
  {
    BitAtParts(DemoPayload, 13, 1, 5, 1, true, 0);
    assert WalkSymbol(Join10, DemoPayload, 133, 13) == WalkSymbol(Join9, DemoPayload, 133, 14);
    BitAtParts(DemoPayload, 14, 1, 6, 3, false, 0);
    assert WalkSymbol(Join9, DemoPayload, 133, 14) == WalkSymbol(Join6, DemoPayload, 133, 15);
    BitAtParts(DemoPayload, 15, 1, 7, 6, false, 0);
    assert WalkSymbol(Join6, DemoPayload, 133, 15) == WalkSymbol(Join4, DemoPayload, 133, 16);
    BitAtParts(DemoPayload, 16, 2, 0, 0, false, 120);
    assert WalkSymbol(Join4, DemoPayload, 133, 16) == WalkSymbol(Leaf1, DemoPayload, 133, 17);
  }

  lemma DemoSymbol4()
    ensures DecodeFrom(DemoTree, DemoPayload, 133, 13, DemoOutput[..4]) == DecodeFrom(DemoTree, DemoPayload, 133, 17, DemoOutput[..5])
  {
    DemoWalk4();
    assert DemoOutput[4] == 49;
    assert DemoOutput[..4] + [DemoOutput[4]] == DemoOutput[..5];
  }

  lemma DemoWalk5()
    ensures WalkSymbol(DemoTree, DemoPayload, 133, 17) == Reached(45, 20)
  {
    BitAtParts(DemoPayload, 17, 2, 1, 0, true, 56);
    assert WalkSymbol(Join10, DemoPayload, 133, 17) == WalkSymbol(Join9, DemoPayload, 133, 18);
    BitAtParts(DemoPayload, 18, 2, 2, 1, true, 24);
    assert WalkSymbol(Join9, DemoPayload, 133, 18) == WalkSymbol(Join7, DemoPayload, 133, 19);
    BitAtParts(DemoPayload, 19, 2, 3, 3, true, 8);
    assert WalkSymbol(Join7, DemoPayload, 133, 19) == WalkSymbol(LeafDash, DemoPayload, 133, 20);
  }

  lemma DemoSymbol5()
    ensures DecodeFrom(DemoTree, DemoPayload, 133, 17, DemoOutput[..5]) == DecodeFrom(DemoTree, DemoPayload, 133, 20, DemoOutput[..6])
  {
    DemoWalk5();
    assert DemoOutput[5] == 45;
    assert DemoOutput[..5] + [DemoOutput[5]] == DemoOutput[..6];
  }

  lemma DemoWalk6()
    ensures WalkSymbol(DemoTree, DemoPayload, 133, 20) == Reached(49, 24)
  {
    BitAtParts(DemoPayload, 20, 2, 4, 7, true, 0);
    assert WalkSymbol(Join10, DemoPayload, 133, 20) == WalkSymbol(Join9, DemoPayload, 133, 21);
    BitAtParts(DemoPayload, 21, 2, 5, 15, false, 0);
    assert WalkSymbol(Join9, DemoPayload, 133, 21) == WalkSymbol(Join6, DemoPayload, 133, 22);
    BitAtParts(DemoPayload, 22, 2, 6, 30, false, 0);
    assert WalkSymbol(Join6, DemoPayload, 133, 22) == WalkSymbol(Join4, DemoPayload, 133, 23);
    BitAtParts(DemoPayload, 23, 2, 7, 60, false, 0);
    assert WalkSymbol(Join4, DemoPayload, 133, 23) == WalkSymbol(Leaf1, DemoPayload, 133, 24);
  }

  lemma DemoSymbol6()
    ensures DecodeFrom(DemoTree, DemoPayload, 133, 20, DemoOutput[..6]) == DecodeFrom(DemoTree, DemoPayload, 133, 24, DemoOutput[..7])
  {
    DemoWalk6();
    assert DemoOutput[6] == 49;
    assert DemoOutput[..6] + [DemoOutput[6]] == DemoOutput[..7];
  }

  lemma DemoWalk7()
    ensures WalkSymbol(DemoTree, DemoPayload, 133, 24) == Reached(57, 29)
  {
    BitAtParts(DemoPayload, 24, 3, 0, 0, true, 16);
    assert WalkSymbol(Join10, DemoPayload, 133, 24) == WalkSymbol(Join9, DemoPayload, 133, 25);
    BitAtParts(DemoPayload, 25, 3, 1, 1, false, 16);
    assert WalkSymbol(Join9, DemoPayload, 133, 25) == WalkSymbol(Join6, DemoPayload, 133, 26);
    BitAtParts(DemoPayload, 26, 3, 2, 2, false, 16);
    assert WalkSymbol(Join6, DemoPayload, 133, 26) == WalkSymbol(Join4, DemoPayload, 133, 27);
    BitAtParts(DemoPayload, 27, 3, 3, 4, true, 0);
    assert WalkSymbol(Join4, DemoPayload, 133, 27) == WalkSymbol(Join1, DemoPayload, 133, 28);
    BitAtParts(DemoPayload, 28, 3, 4, 9, false, 0);
    assert WalkSymbol(Join1, DemoPayload, 133, 28) == WalkSymbol(Leaf9, DemoPayload, 133, 29);
  }

  lemma DemoSymbol7()
    ensures DecodeFrom(DemoTree, DemoPayload, 133, 24, DemoOutput[..7]) == DecodeFrom(DemoTree, DemoPayload, 133, 29, DemoOutput[..8])
  {
    DemoWalk7();
    assert DemoOutput[7] == 57;
    assert DemoOutput[..7] + [DemoOutput[7]] == DemoOutput[..8];
  }

  lemma DemoWalk8()
    ensures WalkSymbol(DemoTree, DemoPayload, 133, 29) == Reached(56, 32)
  {
    BitAtParts(DemoPayload, 29, 3, 5, 18, false, 0);
    assert WalkSymbol(Join10, DemoPayload, 133, 29) == WalkSymbol(Join8, DemoPayload, 133, 30);
    BitAtParts(DemoPayload, 30, 3, 6, 36, false, 0);
    assert WalkSymbol(Join8, DemoPayload, 133, 30) == WalkSymbol(Join5, DemoPayload, 133, 31);
    BitAtParts(DemoPayload, 31, 3, 7, 72, false, 0);
    assert WalkSymbol(Join5, DemoPayload, 133, 31) == WalkSymbol(Leaf8, DemoPayload, 133, 32);
  }

  lemma DemoSymbol8()
    ensures DecodeFrom(DemoTree, DemoPayload, 133, 29, DemoOutput[..8]) == DecodeFrom(DemoTree, DemoPayload, 133, 32, DemoOutput[..9])
  {
    DemoWalk8();
    assert DemoOutput[8] == 56;
    assert DemoOutput[..8] + [DemoOutput[8]] == DemoOutput[..9];
  }

  lemma DemoWalk9()
    ensures WalkSymbol(DemoTree, DemoPayload, 133, 32) == Reached(45, 35)
  {
    BitAtParts(DemoPayload, 32, 4, 0, 0, true, 123);
    assert WalkSymbol(Join10, DemoPayload, 133, 32) == WalkSymbol(Join9, DemoPayload, 133, 33);
    BitAtParts(DemoPayload, 33, 4, 1, 1, true, 59);
    assert WalkSymbol(Join9, DemoPayload, 133, 33) == WalkSymbol(Join7, DemoPayload, 133, 34);
    BitAtParts(DemoPayload, 34, 4, 2, 3, true, 27);
    assert WalkSymbol(Join7, DemoPayload, 133, 34) == WalkSymbol(LeafDash, DemoPayload, 133, 35);
  }

  lemma DemoSymbol9()
    ensures DecodeFrom(DemoTree, DemoPayload, 133, 32, DemoOutput[..9]) == DecodeFrom(DemoTree, DemoPayload, 133, 35, DemoOutput[..10])
  {
    DemoWalk9();
    assert DemoOutput[9] == 45;
    assert DemoOutput[..9] + [DemoOutput[9]] == DemoOutput[..10];
  }

  lemma DemoWalk10()
    ensures WalkSymbol(DemoTree, DemoPayload, 133, 35) == Reached(53, 38)
  {
    BitAtParts(DemoPayload, 35, 4, 3, 7, true, 11);
    assert WalkSymbol(Join10, DemoPayload, 133, 35) == WalkSymbol(Join9, DemoPayload, 133, 36);
    BitAtParts(DemoPayload, 36, 4, 4, 15, true, 3);
    assert WalkSymbol(Join9, DemoPayload, 133, 36) == WalkSymbol(Join7, DemoPayload, 133, 37);
    BitAtParts(DemoPayload, 37, 4, 5, 31, false, 3);
    assert WalkSymbol(Join7, DemoPayload, 133, 37) == WalkSymbol(Leaf5, DemoPayload, 133, 38);
  }

  lemma DemoSymbol10()
    ensures DecodeFrom(DemoTree, DemoPayload, 133, 35, DemoOutput[..10]) == DecodeFrom(DemoTree, DemoPayload, 133, 38, DemoOutput[..11])
  {
    DemoWalk10();
    assert DemoOutput[10] == 53;
    assert DemoOutput[..10] + [DemoOutput[10]] == DemoOutput[..11];
  }

  lemma DemoWalk11()
    ensures WalkSymbol(DemoTree, DemoPayload, 133, 38) == Reached(53, 41)
  {
    BitAtParts(DemoPayload, 38, 4, 6, 62, true, 1);
    assert WalkSymbol(Join10, DemoPayload, 133, 38) == WalkSymbol(Join9, DemoPayload, 133, 39);
    BitAtParts(DemoPayload, 39, 4, 7, 125, true, 0);
    assert WalkSymbol(Join9, DemoPayload, 133, 39) == WalkSymbol(Join7, DemoPayload, 133, 40);
    BitAtParts(DemoPayload, 40, 5, 0, 0, false, 29);
    assert WalkSymbol(Join7, DemoPayload, 133, 40) == WalkSymbol(Leaf5, DemoPayload, 133, 41);
  }

  lemma DemoSymbol11()
    ensures DecodeFrom(DemoTree, DemoPayload, 133, 38, DemoOutput[..11]) == DecodeFrom(DemoTree, DemoPayload, 133, 41, DemoOutput[..12])
  {
    DemoWalk11();
    assert DemoOutput[11] == 53;
    assert DemoOutput[..11] + [DemoOutput[11]] == DemoOutput[..12];
  }

  lemma DemoWalk12()
    ensures WalkSymbol(DemoTree, DemoPayload, 133, 41) == Reached(52, 45)
  {
    BitAtParts(DemoPayload, 41, 5, 1, 0, false, 29);
    assert WalkSymbol(Join10, DemoPayload, 133, 41) == WalkSymbol(Join8, DemoPayload, 133, 42);
    BitAtParts(DemoPayload, 42, 5, 2, 0, false, 29);
    assert WalkSymbol(Join8, DemoPayload, 133, 42) == WalkSymbol(Join5, DemoPayload, 133, 43);
    BitAtParts(DemoPayload, 43, 5, 3, 0, true, 13);
    assert WalkSymbol(Join5, DemoPayload, 133, 43) == WalkSymbol(Join2, DemoPayload, 133, 44);
    BitAtParts(DemoPayload, 44, 5, 4, 1, true, 5);
    assert WalkSymbol(Join2, DemoPayload, 133, 44) == WalkSymbol(Leaf4, DemoPayload, 133, 45);
  }

  lemma DemoSymbol12()
    ensures DecodeFrom(DemoTree, DemoPayload, 133, 41, DemoOutput[..12]) == DecodeFrom(DemoTree, DemoPayload, 133, 45, DemoOutput[..13])
  {
    DemoWalk12();
    assert DemoOutput[12] == 52;
    assert DemoOutput[..12] + [DemoOutput[12]] == DemoOutput[..13];
  }

  lemma DemoWalk13()
    ensures WalkSymbol(DemoTree, DemoPayload, 133, 45) == Reached(50, 49)
  {
    BitAtParts(DemoPayload, 45, 5, 5, 3, true, 1);
    assert WalkSymbol(Join10, DemoPayload, 133, 45) == WalkSymbol(Join9, DemoPayload, 133, 46);
    BitAtParts(DemoPayload, 46, 5, 6, 7, false, 1);
    assert WalkSymbol(Join9, DemoPayload, 133, 46) == WalkSymbol(Join6, DemoPayload, 133, 47);
    BitAtParts(DemoPayload, 47, 5, 7, 14, true, 0);
    assert WalkSymbol(Join6, DemoPayload, 133, 47) == WalkSymbol(Join3, DemoPayload, 133, 48);
    BitAtParts(DemoPayload, 48, 6, 0, 0, false, 14);
    assert WalkSymbol(Join3, DemoPayload, 133, 48) == WalkSymbol(Leaf2, DemoPayload, 133, 49);
  }

  lemma DemoSymbol13()
    ensures DecodeFrom(DemoTree, DemoPayload, 133, 45, DemoOutput[..13]) == DecodeFrom(DemoTree, DemoPayload, 133, 49, DemoOutput[..14])
  {
    DemoWalk13();
    assert DemoOutput[13] == 50;
    assert DemoOutput[..13] + [DemoOutput[13]] == DemoOutput[..14];
  }

  lemma DemoWalk14()
    ensures WalkSymbol(DemoTree, DemoPayload, 133, 49) == Reached(56, 52)
  {
    BitAtParts(DemoPayload, 49, 6, 1, 0, false, 14);
    assert WalkSymbol(Join10, DemoPayload, 133, 49) == WalkSymbol(Join8, DemoPayload, 133, 50);
    BitAtParts(DemoPayload, 50, 6, 2, 0, false, 14);
    assert WalkSymbol(Join8, DemoPayload, 133, 50) == WalkSymbol(Join5, DemoPayload, 133, 51);
    BitAtParts(DemoPayload, 51, 6, 3, 0, false, 14);
    assert WalkSymbol(Join5, DemoPayload, 133, 51) == WalkSymbol(Leaf8, DemoPayload, 133, 52);
  }

  lemma DemoSymbol14()
    ensures DecodeFrom(DemoTree, DemoPayload, 133, 49, DemoOutput[..14]) == DecodeFrom(DemoTree, DemoPayload, 133, 52, DemoOutput[..15])
  {
    DemoWalk14();
    assert DemoOutput[14] == 56;
    assert DemoOutput[..14] + [DemoOutput[14]] == DemoOutput[..15];
  }

  lemma DemoWalk15()
    ensures WalkSymbol(DemoTree, DemoPayload, 133, 52) == Reached(45, 55)
  {
    BitAtParts(DemoPayload, 52, 6, 4, 0, true, 6);
    assert WalkSymbol(Join10, DemoPayload, 133, 52) == WalkSymbol(Join9, DemoPayload, 133, 53);
    BitAtParts(DemoPayload, 53, 6, 5, 1, true, 2);
    assert WalkSymbol(Join9, DemoPayload, 133, 53) == WalkSymbol(Join7, DemoPayload, 133, 54);
    BitAtParts(DemoPayload, 54, 6, 6, 3, true, 0);
    assert WalkSymbol(Join7, DemoPayload, 133, 54) == WalkSymbol(LeafDash, DemoPayload, 133, 55);
  }

  lemma DemoSymbol15()
    ensures DecodeFrom(DemoTree, DemoPayload, 133, 52, DemoOutput[..15]) == DecodeFrom(DemoTree, DemoPayload, 133, 55, DemoOutput[..16])
  {
    DemoWalk15();
    assert DemoOutput[15] == 45;
    assert DemoOutput[..15] + [DemoOutput[15]] == DemoOutput[..16];
  }

  lemma DemoWalk16()
    ensures WalkSymbol(DemoTree, DemoPayload, 133, 55) == Reached(52, 59)
  {
    BitAtParts(DemoPayload, 55, 6, 7, 7, false, 0);
    assert WalkSymbol(Join10, DemoPayload, 133, 55) == WalkSymbol(Join8, DemoPayload, 133, 56);
    BitAtParts(DemoPayload, 56, 7, 0, 0, false, 110);
    assert WalkSymbol(Join8, DemoPayload, 133, 56) == WalkSymbol(Join5, DemoPayload, 133, 57);
    BitAtParts(DemoPayload, 57, 7, 1, 0, true, 46);
    assert WalkSymbol(Join5, DemoPayload, 133, 57) == WalkSymbol(Join2, DemoPayload, 133, 58);
    BitAtParts(DemoPayload, 58, 7, 2, 1, true, 14);
    assert WalkSymbol(Join2, DemoPayload, 133, 58) == WalkSymbol(Leaf4, DemoPayload, 133, 59);
  }

  lemma DemoSymbol16()
    ensures DecodeFrom(DemoTree, DemoPayload, 133, 55, DemoOutput[..16]) == DecodeFrom(DemoTree, DemoPayload, 133, 59, DemoOutput[..17])
  {
    DemoWalk16();
    assert DemoOutput[16] == 52;
    assert DemoOutput[..16] + [DemoOutput[16]] == DemoOutput[..17];
  }

  lemma DemoWalk17()
    ensures WalkSymbol(DemoTree, DemoPayload, 133, 59) == Reached(48, 61)
  {
    BitAtParts(DemoPayload, 59, 7, 3, 3, false, 14);
    assert WalkSymbol(Join10, DemoPayload, 133, 59) == WalkSymbol(Join8, DemoPayload, 133, 60);
    BitAtParts(DemoPayload, 60, 7, 4, 6, true, 6);
    assert WalkSymbol(Join8, DemoPayload, 133, 60) == WalkSymbol(Leaf0, DemoPayload, 133, 61);
  }

  lemma DemoSymbol17()
    ensures DecodeFrom(DemoTree, DemoPayload, 133, 59, DemoOutput[..17]) == DecodeFrom(DemoTree, DemoPayload, 133, 61, DemoOutput[..18])
  {
    DemoWalk17();
    assert DemoOutput[17] == 48;
    assert DemoOutput[..17] + [DemoOutput[17]] == DemoOutput[..18];
  }

  lemma DemoWalk18()
    ensures WalkSymbol(DemoTree, DemoPayload, 133, 61) == Reached(53, 64)
  {
    BitAtParts(DemoPayload, 61, 7, 5, 13, true, 2);
    assert WalkSymbol(Join10, DemoPayload, 133, 61) == WalkSymbol(Join9, DemoPayload, 133, 62);
    BitAtParts(DemoPayload, 62, 7, 6, 27, true, 0);
    assert WalkSymbol(Join9, DemoPayload, 133, 62) == WalkSymbol(Join7, DemoPayload, 133, 63);
    BitAtParts(DemoPayload, 63, 7, 7, 55, false, 0);
    assert WalkSymbol(Join7, DemoPayload, 133, 63) == WalkSymbol(Leaf5, DemoPayload, 133, 64);
  }

  lemma DemoSymbol18()
    ensures DecodeFrom(DemoTree, DemoPayload, 133, 61, DemoOutput[..18]) == DecodeFrom(DemoTree, DemoPayload, 133, 64, DemoOutput[..19])
  {
    DemoWalk18();
    assert DemoOutput[18] == 53;
    assert DemoOutput[..18] + [DemoOutput[18]] == DemoOutput[..19];
  }

  lemma DemoWalk19()
    ensures WalkSymbol(DemoTree, DemoPayload, 133, 64) == Reached(48, 66)
  {
    BitAtParts(DemoPayload, 64, 8, 0, 0, false, 75);
    assert WalkSymbol(Join10, DemoPayload, 133, 64) == WalkSymbol(Join8, DemoPayload, 133, 65);
    BitAtParts(DemoPayload, 65, 8, 1, 0, true, 11);
    assert WalkSymbol(Join8, DemoPayload, 133, 65) == WalkSymbol(Leaf0, DemoPayload, 133, 66);
  }

  lemma DemoSymbol19()
    ensures DecodeFrom(DemoTree, DemoPayload, 133, 64, DemoOutput[..19]) == DecodeFrom(DemoTree, DemoPayload, 133, 66, DemoOutput[..20])
  {
    DemoWalk19();
    assert DemoOutput[19] == 48;
    assert DemoOutput[..19] + [DemoOutput[19]] == DemoOutput[..20];
  }

  lemma DemoWalk20()
    ensures WalkSymbol(DemoTree, DemoPayload, 133, 66) == Reached(124, 70)
  {
    BitAtParts(DemoPayload, 66, 8, 2, 1, false, 11);
    assert WalkSymbol(Join10, DemoPayload, 133, 66) == WalkSymbol(Join8, DemoPayload, 133, 67);
    BitAtParts(DemoPayload, 67, 8, 3, 2, false, 11);
    assert WalkSymbol(Join8, DemoPayload, 133, 67) == WalkSymbol(Join5, DemoPayload, 133, 68);
    BitAtParts(DemoPayload, 68, 8, 4, 4, true, 3);
    assert WalkSymbol(Join5, DemoPayload, 133, 68) == WalkSymbol(Join2, DemoPayload, 133, 69);
    BitAtParts(DemoPayload, 69, 8, 5, 9, false, 3);
    assert WalkSymbol(Join2, DemoPayload, 133, 69) == WalkSymbol(LeafBar, DemoPayload, 133, 70);
  }

  lemma DemoSymbol20()
    ensures DecodeFrom(DemoTree, DemoPayload, 133, 66, DemoOutput[..20]) == DecodeFrom(DemoTree, DemoPayload, 133, 70, DemoOutput[..21])
  {
    DemoWalk20();
    assert DemoOutput[20] == 124;
    assert DemoOutput[..20] + [DemoOutput[20]] == DemoOutput[..21];
  }

  lemma DemoWalk21()
    ensures WalkSymbol(DemoTree, DemoPayload, 133, 70) == Reached(53, 73)
  {
    BitAtParts(DemoPayload, 70, 8, 6, 18, true, 1);
    assert WalkSymbol(Join10, DemoPayload, 133, 70) == WalkSymbol(Join9, DemoPayload, 133, 71);
    BitAtParts(DemoPayload, 71, 8, 7, 37, true, 0);
    assert WalkSymbol(Join9, DemoPayload, 133, 71) == WalkSymbol(Join7, DemoPayload, 133, 72);
    BitAtParts(DemoPayload, 72, 9, 0, 0, false, 76);
    assert WalkSymbol(Join7, DemoPayload, 133, 72) == WalkSymbol(Leaf5, DemoPayload, 133, 73);
  }

  lemma DemoSymbol21()
    ensures DecodeFrom(DemoTree, DemoPayload, 133, 70, DemoOutput[..21]) == DecodeFrom(DemoTree, DemoPayload, 133, 73, DemoOutput[..22])
  {
    DemoWalk21();
    assert DemoOutput[21] == 53;
    assert DemoOutput[..21] + [DemoOutput[21]] == DemoOutput[..22];
  }

  lemma DemoWalk22()
    ensures WalkSymbol(DemoTree, DemoPayload, 133, 73) == Reached(51, 78)
  {
    BitAtParts(DemoPayload, 73, 9, 1, 0, true, 12);
    assert WalkSymbol(Join10, DemoPayload, 133, 73) == WalkSymbol(Join9, DemoPayload, 133, 74);
    BitAtParts(DemoPayload, 74, 9, 2, 1, false, 12);
    assert WalkSymbol(Join9, DemoPayload, 133, 74) == WalkSymbol(Join6, DemoPayload, 133, 75);
    BitAtParts(DemoPayload, 75, 9, 3, 2, false, 12);
    assert WalkSymbol(Join6, DemoPayload, 133, 75) == WalkSymbol(Join4, DemoPayload, 133, 76);
    BitAtParts(DemoPayload, 76, 9, 4, 4, true, 4);
    assert WalkSymbol(Join4, DemoPayload, 133, 76) == WalkSymbol(Join1, DemoPayload, 133, 77);
    BitAtParts(DemoPayload, 77, 9, 5, 9, true, 0);
    assert WalkSymbol(Join1, DemoPayload, 133, 77) == WalkSymbol(Leaf3, DemoPayload, 133, 78);
  }

  lemma DemoSymbol22()
    ensures DecodeFrom(DemoTree, DemoPayload, 133, 73, DemoOutput[..22]) == DecodeFrom(DemoTree, DemoPayload, 133, 78, DemoOutput[..23])
  {
    DemoWalk22();
    assert DemoOutput[22] == 51;
    assert DemoOutput[..22] + [DemoOutput[22]] == DemoOutput[..23];
  }

  lemma DemoWalk23()
    ensures WalkSymbol(DemoTree, DemoPayload, 133, 78) == Reached(56, 81)
  {
    BitAtParts(DemoPayload, 78, 9, 6, 19, false, 0);
    assert WalkSymbol(Join10, DemoPayload, 133, 78) == WalkSymbol(Join8, DemoPayload, 133, 79);
    BitAtParts(DemoPayload, 79, 9, 7, 38, false, 0);
    assert WalkSymbol(Join8, DemoPayload, 133, 79) == WalkSymbol(Join5, DemoPayload, 133, 80);
    BitAtParts(DemoPayload, 80, 10, 0, 0, false, 53);
    assert WalkSymbol(Join5, DemoPayload, 133, 80) == WalkSymbol(Leaf8, DemoPayload, 133, 81);
  }

  lemma DemoSymbol23()
    ensures DecodeFrom(DemoTree, DemoPayload, 133, 78, DemoOutput[..23]) == DecodeFrom(DemoTree, DemoPayload, 133, 81, DemoOutput[..24])
  {
    DemoWalk23();
    assert DemoOutput[23] == 56;
    assert DemoOutput[..23] + [DemoOutput[23]] == DemoOutput[..24];
  }

  lemma DemoWalk24()
    ensures WalkSymbol(DemoTree, DemoPayload, 133, 81) == Reached(48, 83)
  {
    BitAtParts(DemoPayload, 81, 10, 1, 0, false, 53);
    assert WalkSymbol(Join10, DemoPayload, 133, 81) == WalkSymbol(Join8, DemoPayload, 133, 82);
    BitAtParts(DemoPayload, 82, 10, 2, 0, true, 21);
    assert WalkSymbol(Join8, DemoPayload, 133, 82) == WalkSymbol(Leaf0, DemoPayload, 133, 83);
  }

  lemma DemoSymbol24()
    ensures DecodeFrom(DemoTree, DemoPayload, 133, 81, DemoOutput[..24]) == DecodeFrom(DemoTree, DemoPayload, 133, 83, DemoOutput[..25])
  {
    DemoWalk24();
    assert DemoOutput[24] == 48;
    assert DemoOutput[..24] + [DemoOutput[24]] == DemoOutput[..25];
  }

  lemma DemoWalk25()
    ensures WalkSymbol(DemoTree, DemoPayload, 133, 83) == Reached(50, 87)
  {
    BitAtParts(DemoPayload, 83, 10, 3, 1, true, 5);
    assert WalkSymbol(Join10, DemoPayload, 133, 83) == WalkSymbol(Join9, DemoPayload, 133, 84);
    BitAtParts(DemoPayload, 84, 10, 4, 3, false, 5);
    assert WalkSymbol(Join9, DemoPayload, 133, 84) == WalkSymbol(Join6, DemoPayload, 133, 85);
    BitAtParts(DemoPayload, 85, 10, 5, 6, true, 1);
    assert WalkSymbol(Join6, DemoPayload, 133, 85) == WalkSymbol(Join3, DemoPayload, 133, 86);
    BitAtParts(DemoPayload, 86, 10, 6, 13, false, 1);
    assert WalkSymbol(Join3, DemoPayload, 133, 86) == WalkSymbol(Leaf2, DemoPayload, 133, 87);
  }

  lemma DemoSymbol25()
    ensures DecodeFrom(DemoTree, DemoPayload, 133, 83, DemoOutput[..25]) == DecodeFrom(DemoTree, DemoPayload, 133, 87, DemoOutput[..26])
  {
    DemoWalk25();
    assert DemoOutput[25] == 50;
    assert DemoOutput[..25] + [DemoOutput[25]] == DemoOutput[..26];
  }

  lemma DemoWalk26()
    ensures WalkSymbol(DemoTree, DemoPayload, 133, 87) == Reached(45, 90)
  {
    BitAtParts(DemoPayload, 87, 10, 7, 26, true, 0);
    assert WalkSymbol(Join10, DemoPayload, 133, 87) == WalkSymbol(Join9, DemoPayload, 133, 88);
    BitAtParts(DemoPayload, 88, 11, 0, 0, true, 95);
    assert WalkSymbol(Join9, DemoPayload, 133, 88) == WalkSymbol(Join7, DemoPayload, 133, 89);
    BitAtParts(DemoPayload, 89, 11, 1, 1, true, 31);
    assert WalkSymbol(Join7, DemoPayload, 133, 89) == WalkSymbol(LeafDash, DemoPayload, 133, 90);
  }

  lemma DemoSymbol26()
    ensures DecodeFrom(DemoTree, DemoPayload, 133, 87, DemoOutput[..26]) == DecodeFrom(DemoTree, DemoPayload, 133, 90, DemoOutput[..27])
  {
    DemoWalk26();
    assert DemoOutput[26] == 45;
    assert DemoOutput[..26] + [DemoOutput[26]] == DemoOutput[..27];
  }

  lemma DemoWalk27()
    ensures WalkSymbol(DemoTree, DemoPayload, 133, 90) == Reached(48, 92)
  {
    BitAtParts(DemoPayload, 90, 11, 2, 3, false, 31);
    assert WalkSymbol(Join10, DemoPayload, 133, 90) == WalkSymbol(Join8, DemoPayload, 133, 91);
    BitAtParts(DemoPayload, 91, 11, 3, 6, true, 15);
    assert WalkSymbol(Join8, DemoPayload, 133, 91) == WalkSymbol(Leaf0, DemoPayload, 133, 92);
  }

  lemma DemoSymbol27()
    ensures DecodeFrom(DemoTree, DemoPayload, 133, 90, DemoOutput[..27]) == DecodeFrom(DemoTree, DemoPayload, 133, 92, DemoOutput[..28])
  {
    DemoWalk27();
    assert DemoOutput[27] == 48;
    assert DemoOutput[..27] + [DemoOutput[27]] == DemoOutput[..28];
  }

  lemma DemoWalk28()
    ensures WalkSymbol(DemoTree, DemoPayload, 133, 92) == Reached(45, 95)
  {
    BitAtParts(DemoPayload, 92, 11, 4, 13, true, 7);
    assert WalkSymbol(Join10, DemoPayload, 133, 92) == WalkSymbol(Join9, DemoPayload, 133, 93);
    BitAtParts(DemoPayload, 93, 11, 5, 27, true, 3);
    assert WalkSymbol(Join9, DemoPayload, 133, 93) == WalkSymbol(Join7, DemoPayload, 133, 94);
    BitAtParts(DemoPayload, 94, 11, 6, 55, true, 1);
    assert WalkSymbol(Join7, DemoPayload, 133, 94) == WalkSymbol(LeafDash, DemoPayload, 133, 95);
  }

  lemma DemoSymbol28()
    ensures DecodeFrom(DemoTree, DemoPayload, 133, 92, DemoOutput[..28]) == DecodeFrom(DemoTree, DemoPayload, 133, 95, DemoOutput[..29])
  {
    DemoWalk28();
    assert DemoOutput[28] == 45;
    assert DemoOutput[..28] + [DemoOutput[28]] == DemoOutput[..29];
  }

  lemma DemoWalk29()
    ensures WalkSymbol(DemoTree, DemoPayload, 133, 95) == Reached(49, 99)
  {
    BitAtParts(DemoPayload, 95, 11, 7, 111, true, 0);
    assert WalkSymbol(Join10, DemoPayload, 133, 95) == WalkSymbol(Join9, DemoPayload, 133, 96);
    BitAtParts(DemoPayload, 96, 12, 0, 0, false, 23);
    assert WalkSymbol(Join9, DemoPayload, 133, 96) == WalkSymbol(Join6, DemoPayload, 133, 97);
    BitAtParts(DemoPayload, 97, 12, 1, 0, false, 23);
    assert WalkSymbol(Join6, DemoPayload, 133, 97) == WalkSymbol(Join4, DemoPayload, 133, 98);
    BitAtParts(DemoPayload, 98, 12, 2, 0, false, 23);
    assert WalkSymbol(Join4, DemoPayload, 133, 98) == WalkSymbol(Leaf1, DemoPayload, 133, 99);
  }

  lemma DemoSymbol29()
    ensures DecodeFrom(DemoTree, DemoPayload, 133, 95, DemoOutput[..29]) == DecodeFrom(DemoTree, DemoPayload, 133, 99, DemoOutput[..30])
  {
    DemoWalk29();
    assert DemoOutput[29] == 49;
    assert DemoOutput[..29] + [DemoOutput[29]] == DemoOutput[..30];
  }

  lemma DemoWalk30()
    ensures WalkSymbol(DemoTree, DemoPayload, 133, 99) == Reached(55, 103)
  {
    BitAtParts(DemoPayload, 99, 12, 3, 0, true, 7);
    assert WalkSymbol(Join10, DemoPayload, 133, 99) == WalkSymbol(Join9, DemoPayload, 133, 100);
    BitAtParts(DemoPayload, 100, 12, 4, 1, false, 7);
    assert WalkSymbol(Join9, DemoPayload, 133, 100) == WalkSymbol(Join6, DemoPayload, 133, 101);
    BitAtParts(DemoPayload, 101, 12, 5, 2, true, 3);
    assert WalkSymbol(Join6, DemoPayload, 133, 101) == WalkSymbol(Join3, DemoPayload, 133, 102);
    BitAtParts(DemoPayload, 102, 12, 6, 5, true, 1);
    assert WalkSymbol(Join3, DemoPayload, 133, 102) == WalkSymbol(Leaf7, DemoPayload, 133, 103);
  }

  lemma DemoSymbol30()
    ensures DecodeFrom(DemoTree, DemoPayload, 133, 99, DemoOutput[..30]) == DecodeFrom(DemoTree, DemoPayload, 133, 103, DemoOutput[..31])
  {
    DemoWalk30();
    assert DemoOutput[30] == 55;
    assert DemoOutput[..30] + [DemoOutput[30]] == DemoOutput[..31];
  }

  lemma DemoWalk31()
    ensures WalkSymbol(DemoTree, DemoPayload, 133, 103) == Reached(55, 107)
  {
    BitAtParts(DemoPayload, 103, 12, 7, 11, true, 0);
    assert WalkSymbol(Join10, DemoPayload, 133, 103) == WalkSymbol(Join9, DemoPayload, 133, 104);
    BitAtParts(DemoPayload, 104, 13, 0, 0, false, 117);
    assert WalkSymbol(Join9, DemoPayload, 133, 104) == WalkSymbol(Join6, DemoPayload, 133, 105);
    BitAtParts(DemoPayload, 105, 13, 1, 0, true, 53);
    assert WalkSymbol(Join6, DemoPayload, 133, 105) == WalkSymbol(Join3, DemoPayload, 133, 106);
    BitAtParts(DemoPayload, 106, 13, 2, 1, true, 21);
    assert WalkSymbol(Join3, DemoPayload, 133, 106) == WalkSymbol(Leaf7, DemoPayload, 133, 107);
  }

  lemma DemoSymbol31()
    ensures DecodeFrom(DemoTree, DemoPayload, 133, 103, DemoOutput[..31]) == DecodeFrom(DemoTree, DemoPayload, 133, 107, DemoOutput[..32])
  {
    DemoWalk31();
    assert DemoOutput[31] == 55;
    assert DemoOutput[..31] + [DemoOutput[31]] == DemoOutput[..32];
  }

  lemma DemoWalk32()
    ensures WalkSymbol(DemoTree, DemoPayload, 133, 107) == Reached(50, 111)
  {
    BitAtParts(DemoPayload, 107, 13, 3, 3, true, 5);
    assert WalkSymbol(Join10, DemoPayload, 133, 107) == WalkSymbol(Join9, DemoPayload, 133, 108);
    BitAtParts(DemoPayload, 108, 13, 4, 7, false, 5);
    assert WalkSymbol(Join9, DemoPayload, 133, 108) == WalkSymbol(Join6, DemoPayload, 133, 109);
    BitAtParts(DemoPayload, 109, 13, 5, 14, true, 1);
    assert WalkSymbol(Join6, DemoPayload, 133, 109) == WalkSymbol(Join3, DemoPayload, 133, 110);
    BitAtParts(DemoPayload, 110, 13, 6, 29, false, 1);
    assert WalkSymbol(Join3, DemoPayload, 133, 110) == WalkSymbol(Leaf2, DemoPayload, 133, 111);
  }

  lemma DemoSymbol32()
    ensures DecodeFrom(DemoTree, DemoPayload, 133, 107, DemoOutput[..32]) == DecodeFrom(DemoTree, DemoPayload, 133, 111, DemoOutput[..33])
  {
    DemoWalk32();
    assert DemoOutput[32] == 50;
    assert DemoOutput[..32] + [DemoOutput[32]] == DemoOutput[..33];
  }

  lemma DemoWalk33()
    ensures WalkSymbol(DemoTree, DemoPayload, 133, 111) == Reached(53, 114)
  {
    BitAtParts(DemoPayload, 111, 13, 7, 58, true, 0);
    assert WalkSymbol(Join10, DemoPayload, 133, 111) == WalkSymbol(Join9, DemoPayload, 133, 112);
    BitAtParts(DemoPayload, 112, 14, 0, 0, true, 61);
    assert WalkSymbol(Join9, DemoPayload, 133, 112) == WalkSymbol(Join7, DemoPayload, 133, 113);
    BitAtParts(DemoPayload, 113, 14, 1, 1, false, 61);
    assert WalkSymbol(Join7, DemoPayload, 133, 113) == WalkSymbol(Leaf5, DemoPayload, 133, 114);
  }

  lemma DemoSymbol33()
    ensures DecodeFrom(DemoTree, DemoPayload, 133, 111, DemoOutput[..33]) == DecodeFrom(DemoTree, DemoPayload, 133, 114, DemoOutput[..34])
  {
    DemoWalk33();
    assert DemoOutput[33] == 53;
    assert DemoOutput[..33] + [DemoOutput[33]] == DemoOutput[..34];
  }

  lemma DemoWalk34()
    ensures WalkSymbol(DemoTree, DemoPayload, 133, 114) == Reached(45, 117)
  {
    BitAtParts(DemoPayload, 114, 14, 2, 2, true, 29);
    assert WalkSymbol(Join10, DemoPayload, 133, 114) == WalkSymbol(Join9, DemoPayload, 133, 115);
    BitAtParts(DemoPayload, 115, 14, 3, 5, true, 13);
    assert WalkSymbol(Join9, DemoPayload, 133, 115) == WalkSymbol(Join7, DemoPayload, 133, 116);
    BitAtParts(DemoPayload, 116, 14, 4, 11, true, 5);
    assert WalkSymbol(Join7, DemoPayload, 133, 116) == WalkSymbol(LeafDash, DemoPayload, 133, 117);
  }

  lemma DemoSymbol34()
    ensures DecodeFrom(DemoTree, DemoPayload, 133, 114, DemoOutput[..34]) == DecodeFrom(DemoTree, DemoPayload, 133, 117, DemoOutput[..35])
  {
    DemoWalk34();
    assert DemoOutput[34] == 45;
    assert DemoOutput[..34] + [DemoOutput[34]] == DemoOutput[..35];
  }

  lemma DemoWalk35()
    ensures WalkSymbol(DemoTree, DemoPayload, 133, 117) == Reached(55, 121)
  {
    BitAtParts(DemoPayload, 117, 14, 5, 23, true, 1);
    assert WalkSymbol(Join10, DemoPayload, 133, 117) == WalkSymbol(Join9, DemoPayload, 133, 118);
    BitAtParts(DemoPayload, 118, 14, 6, 47, false, 1);
    assert WalkSymbol(Join9, DemoPayload, 133, 118) == WalkSymbol(Join6, DemoPayload, 133, 119);
    BitAtParts(DemoPayload, 119, 14, 7, 94, true, 0);
    assert WalkSymbol(Join6, DemoPayload, 133, 119) == WalkSymbol(Join3, DemoPayload, 133, 120);
    BitAtParts(DemoPayload, 120, 15, 0, 0, true, 42);
    assert WalkSymbol(Join3, DemoPayload, 133, 120) == WalkSymbol(Leaf7, DemoPayload, 133, 121);
  }

  lemma DemoSymbol35()
    ensures DecodeFrom(DemoTree, DemoPayload, 133, 117, DemoOutput[..35]) == DecodeFrom(DemoTree, DemoPayload, 133, 121, DemoOutput[..36])
  {
    DemoWalk35();
    assert DemoOutput[35] == 55;
    assert DemoOutput[..35] + [DemoOutput[35]] == DemoOutput[..36];
  }

  lemma DemoWalk36()
    ensures WalkSymbol(DemoTree, DemoPayload, 133, 121) == Reached(48, 123)
  {
    BitAtParts(DemoPayload, 121, 15, 1, 1, false, 42);
    assert WalkSymbol(Join10, DemoPayload, 133, 121) == WalkSymbol(Join8, DemoPayload, 133, 122);
    BitAtParts(DemoPayload, 122, 15, 2, 2, true, 10);
    assert WalkSymbol(Join8, DemoPayload, 133, 122) == WalkSymbol(Leaf0, DemoPayload, 133, 123);
  }

  lemma DemoSymbol36()
    ensures DecodeFrom(DemoTree, DemoPayload, 133, 121, DemoOutput[..36]) == DecodeFrom(DemoTree, DemoPayload, 133, 123, DemoOutput[..37])
  {
    DemoWalk36();
    assert DemoOutput[36] == 48;
    assert DemoOutput[..36] + [DemoOutput[36]] == DemoOutput[..37];
  }

  lemma DemoWalk37()
    ensures WalkSymbol(DemoTree, DemoPayload, 133, 123) == Reached(48, 125)
  {
    BitAtParts(DemoPayload, 123, 15, 3, 5, false, 10);
    assert WalkSymbol(Join10, DemoPayload, 133, 123) == WalkSymbol(Join8, DemoPayload, 133, 124);
    BitAtParts(DemoPayload, 124, 15, 4, 10, true, 2);
    assert WalkSymbol(Join8, DemoPayload, 133, 124) == WalkSymbol(Leaf0, DemoPayload, 133, 125);
  }

  lemma DemoSymbol37()
    ensures DecodeFrom(DemoTree, DemoPayload, 133, 123, DemoOutput[..37]) == DecodeFrom(DemoTree, DemoPayload, 133, 125, DemoOutput[..38])
  {
    DemoWalk37();
    assert DemoOutput[37] == 48;
    assert DemoOutput[..37] + [DemoOutput[37]] == DemoOutput[..38];
  }

  lemma DemoWalk38()
    ensures WalkSymbol(DemoTree, DemoPayload, 133, 125) == Reached(48, 127)
  {
    BitAtParts(DemoPayload, 125, 15, 5, 21, false, 2);
    assert WalkSymbol(Join10, DemoPayload, 133, 125) == WalkSymbol(Join8, DemoPayload, 133, 126);
    BitAtParts(DemoPayload, 126, 15, 6, 42, true, 0);
    assert WalkSymbol(Join8, DemoPayload, 133, 126) == WalkSymbol(Leaf0, DemoPayload, 133, 127);
  }

  lemma DemoSymbol38()
    ensures DecodeFrom(DemoTree, DemoPayload, 133, 125, DemoOutput[..38]) == DecodeFrom(DemoTree, DemoPayload, 133, 127, DemoOutput[..39])
  {
    DemoWalk38();
    assert DemoOutput[38] == 48;
    assert DemoOutput[..38] + [DemoOutput[38]] == DemoOutput[..39];
  }

  lemma DemoWalk39()
    ensures WalkSymbol(DemoTree, DemoPayload, 133, 127) == Reached(48, 129)
  {
    BitAtParts(DemoPayload, 127, 15, 7, 85, false, 0);
    assert WalkSymbol(Join10, DemoPayload, 133, 127) == WalkSymbol(Join8, DemoPayload, 133, 128);
    BitAtParts(DemoPayload, 128, 16, 0, 0, true, 16);
    assert WalkSymbol(Join8, DemoPayload, 133, 128) == WalkSymbol(Leaf0, DemoPayload, 133, 129);
  }

  lemma DemoSymbol39()
    ensures DecodeFrom(DemoTree, DemoPayload, 133, 127, DemoOutput[..39]) == DecodeFrom(DemoTree, DemoPayload, 133, 129, DemoOutput[..40])
  {
    DemoWalk39();
    assert DemoOutput[39] == 48;
    assert DemoOutput[..39] + [DemoOutput[39]] == DemoOutput[..40];
  }

  lemma DemoWalk40()
    ensures WalkSymbol(DemoTree, DemoPayload, 133, 129) == Reached(124, 133)
  {
    BitAtParts(DemoPayload, 129, 16, 1, 1, false, 16);
    assert WalkSymbol(Join10, DemoPayload, 133, 129) == WalkSymbol(Join8, DemoPayload, 133, 130);
    BitAtParts(DemoPayload, 130, 16, 2, 2, false, 16);
    assert WalkSymbol(Join8, DemoPayload, 133, 130) == WalkSymbol(Join5, DemoPayload, 133, 131);
    BitAtParts(DemoPayload, 131, 16, 3, 4, true, 0);
    assert WalkSymbol(Join5, DemoPayload, 133, 131) == WalkSymbol(Join2, DemoPayload, 133, 132);
    BitAtParts(DemoPayload, 132, 16, 4, 9, false, 0);
    assert WalkSymbol(Join2, DemoPayload, 133, 132) == WalkSymbol(LeafBar, DemoPayload, 133, 133);
  }

  lemma DemoSymbol40()
    ensures DecodeFrom(DemoTree, DemoPayload, 133, 129, DemoOutput[..40]) == DecodeFrom(DemoTree, DemoPayload, 133, 133, DemoOutput[..41])
  {
    DemoWalk40();
    assert DemoOutput[40] == 124;
    assert DemoOutput[..40] + [DemoOutput[40]] == DemoOutput[..41];
  }

  lemma DemoHeader()
    ensures ReadU32At(DemoBytes, 0) == Ok((0x81, 4))
    ensures ReadU32At(DemoBytes, 4) == Ok((0, 8))
    ensures ReadU32At(DemoBytes, 8) == Ok((11, 12))
  {
    SmallWord(DemoBytes, 0, 0x81);
    SmallWord(DemoBytes, 4, 0);
    SmallWord(DemoBytes, 8, 11);
  }

  lemma DemoRecord0()
    ensures RecordsFrom(DemoBytes, 12, 11, DemoEntries[..0]) == RecordsFrom(DemoBytes, 20, 10, DemoEntries[..1])
  {
    SmallWord(DemoBytes, 12, 6);
    assert DemoBytes[16] == 45 && DemoEntries[0] == FreqEntry(45, 6);
    assert DemoEntries[..0] + [DemoEntries[0]] == DemoEntries[..1];
  }

  lemma DemoRecord1()
    ensures RecordsFrom(DemoBytes, 20, 10, DemoEntries[..1]) == RecordsFrom(DemoBytes, 28, 9, DemoEntries[..2])
  {
    SmallWord(DemoBytes, 20, 9);
    assert DemoBytes[24] == 48 && DemoEntries[1] == FreqEntry(48, 9);
    assert DemoEntries[..1] + [DemoEntries[1]] == DemoEntries[..2];
  }

  lemma DemoRecord2()
    ensures RecordsFrom(DemoBytes, 28, 9, DemoEntries[..2]) == RecordsFrom(DemoBytes, 36, 8, DemoEntries[..3])
  {
    SmallWord(DemoBytes, 28, 3);
    assert DemoBytes[32] == 49 && DemoEntries[2] == FreqEntry(49, 3);
    assert DemoEntries[..2] + [DemoEntries[2]] == DemoEntries[..3];
  }

  lemma DemoRecord3()
    ensures RecordsFrom(DemoBytes, 36, 8, DemoEntries[..3]) == RecordsFrom(DemoBytes, 44, 7, DemoEntries[..4])
  {
    SmallWord(DemoBytes, 36, 3);
    assert DemoBytes[40] == 50 && DemoEntries[3] == FreqEntry(50, 3);
    assert DemoEntries[..3] + [DemoEntries[3]] == DemoEntries[..4];
  }

  lemma DemoRecord4()
    ensures RecordsFrom(DemoBytes, 44, 7, DemoEntries[..4]) == RecordsFrom(DemoBytes, 52, 6, DemoEntries[..5])
  {
    SmallWord(DemoBytes, 44, 2);
    assert DemoBytes[48] == 51 && DemoEntries[4] == FreqEntry(51, 2);
    assert DemoEntries[..4] + [DemoEntries[4]] == DemoEntries[..5];
  }

  lemma DemoRecord5()
    ensures RecordsFrom(DemoBytes, 52, 6, DemoEntries[..5]) == RecordsFrom(DemoBytes, 60, 5, DemoEntries[..6])
  {
    SmallWord(DemoBytes, 52, 2);
    assert DemoBytes[56] == 52 && DemoEntries[5] == FreqEntry(52, 2);
    assert DemoEntries[..5] + [DemoEntries[5]] == DemoEntries[..6];
  }

  lemma DemoRecord6()
    ensures RecordsFrom(DemoBytes, 60, 5, DemoEntries[..6]) == RecordsFrom(DemoBytes, 68, 4, DemoEntries[..7])
  {
    SmallWord(DemoBytes, 60, 6);
    assert DemoBytes[64] == 53 && DemoEntries[6] == FreqEntry(53, 6);
    assert DemoEntries[..6] + [DemoEntries[6]] == DemoEntries[..7];
  }

  lemma DemoRecord7()
    ensures RecordsFrom(DemoBytes, 68, 4, DemoEntries[..7]) == RecordsFrom(DemoBytes, 76, 3, DemoEntries[..8])
  {
    SmallWord(DemoBytes, 68, 3);
    assert DemoBytes[72] == 55 && DemoEntries[7] == FreqEntry(55, 3);
    assert DemoEntries[..7] + [DemoEntries[7]] == DemoEntries[..8];
  }

  lemma DemoRecord8()
    ensures RecordsFrom(DemoBytes, 76, 3, DemoEntries[..8]) == RecordsFrom(DemoBytes, 84, 2, DemoEntries[..9])
  {
    SmallWord(DemoBytes, 76, 4);
    assert DemoBytes[80] == 56 && DemoEntries[8] == FreqEntry(56, 4);
    assert DemoEntries[..8] + [DemoEntries[8]] == DemoEntries[..9];
  }

  lemma DemoRecord9()
    ensures RecordsFrom(DemoBytes, 84, 2, DemoEntries[..9]) == RecordsFrom(DemoBytes, 92, 1, DemoEntries[..10])
  {
    SmallWord(DemoBytes, 84, 1);
    assert DemoBytes[88] == 57 && DemoEntries[9] == FreqEntry(57, 1);
    assert DemoEntries[..9] + [DemoEntries[9]] == DemoEntries[..10];
  }

  lemma DemoRecord10()
    ensures RecordsFrom(DemoBytes, 92, 1, DemoEntries[..10]) == RecordsFrom(DemoBytes, 100, 0, DemoEntries[..11])
  {
    SmallWord(DemoBytes, 92, 2);
    assert DemoBytes[96] == 124 && DemoEntries[10] == FreqEntry(124, 2);
    assert DemoEntries[..10] + [DemoEntries[10]] == DemoEntries[..11];
  }

  lemma DemoRecordsFront()
    ensures RecordsFrom(DemoBytes, 12, 11, DemoEntries[..0]) == RecordsFrom(DemoBytes, 60, 5, DemoEntries[..6])
  {
    DemoRecord0();
    DemoRecord1();
    DemoRecord2();
    DemoRecord3();
    DemoRecord4();
    DemoRecord5();
  }

  lemma DemoRecordsBack()
    ensures RecordsFrom(DemoBytes, 60, 5, DemoEntries[..6]) == RecordsFrom(DemoBytes, 100, 0, DemoEntries[..11])
  {
    DemoRecord6();
    DemoRecord7();
    DemoRecord8();
    DemoRecord9();
    DemoRecord10();
  }

}
