# BDO market-data decompressor and record parser, in Dafny

The Black Desert market service answers with text that has been Huffman-packed.
`UnpackBytes` reads a little-endian container holding a frequency table, a
declared bit count and a payload, rebuilds the Huffman tree with a hand-written
binary min-heap, and walks the tree bit by bit, most significant bit first.
The market client then splits the unpacked text on `|` into records and each
record on `-` into decimal fields. `GetMarketList`, `GetMarketSubList` and
`GetBiddingInfoList` turn the records into objects, or into the lowest selling
and highest buying price.

The model follows the Go code file by file:

| module | file | models |
|---|---|---|
| `Wrappers` | `wrappers.dfy` | `Option` and `Result` (Go's `value, error` pairs) |
| `Huffman` | `huffman.dfy` | `Node` and `freqEntry`, `uint32` counts with wrap-around, the failure kinds |
| `MinHeap` | `min_heap.dfy` | `MinHeap.push` and `pop` as a class over the backing slice, with pure specifications |
| `TreeBuilder` | `tree_builder.dfy` | `makeTreeOrdered` |
| `BitStream` | `bit_reader.dfy` | `bitReader.readBit`, and MSB-first bit packing as its inverse |
| `Decoder` | `decoder.dfy` | `decode`, and a Huffman encoder it inverts |
| `Container` | `container.dfy` | `readU32`, `getFreqsOrdered`, `UnpackFromReader` and `UnpackBytes` over a byte reader |
| `MapVariant` | `map_variant.dfy` | the map-based copy in `_test_proj/huffmanunpack` |
| `Demo` | `demo.dfy` | the demonstration vector of `_test_proj/main2.go` |
| `MarketText` | `market_text.dfy` | `strings.Split`, `SplitN`, `strconv.ParseInt` and the three parse loops of `pkg/bdoapi` |
| `MarketDemo` | `market_demo.dfy` | the demonstration text read back by `GetMarketList` |

`_test_proj/main2.go` holds a line-for-line copy of
`pkg/huffmanunpack/huffmanunpack.go` plus the demonstration `main`. The copy is
modelled once, through the `pkg` file. The map-based copy in
`_test_proj/huffmanunpack/huffmanunpack.go` differs in three places:
- Its `push` tests for the root before computing a parent (`MinHeap.Heap.PushGuarded`).
- `getFreqs` stores the records in a map.
- `makeTree` pushes the map's entries in iteration order.

Its `pop`, `readBit` and `decode` behave as the ordered file's do. Its `decode`
takes an extra map argument that it never reads.

Where the code works in place, the model does too:
- The heap is a class whose `arr` field the methods reassign.
- The bit reader and the byte reader are classes with a cursor.
- `decode`, `getFreqsOrdered`, `makeTreeOrdered` and the three market loops are
  methods with `while` loops.

Each method is proved equal to a pure function, and the properties are proved
about those functions.

Go's behaviour is followed where it is unusual:
- In `push`, `(0 - 1) / 2` truncates to parent index 0.
- Internal node counts wrap modulo 2^32.
- `readBit` indexes the payload without a bounds check. Reading past the
  payload is the `IndexOutOfRange` panic.
- A single-leaf tree with a positive bit count makes `decode` spin for ever.
  This is the `NeverReturns` outcome.
- `GetBiddingInfoList` silently skips records without exactly three fields.

Heap ties are not popped in insertion order. Pushing three nodes of equal
count A, B, C pops A, C, B, because sift-down prefers the left child unless the
right one is strictly smaller. The model follows the code
(`MinHeap.TiesPopOutOfInsertionOrder`).

The demonstration table holds the symbols `-`, `0`-`5`, `7`-`9` and `|`, with
no `6`. This is what the bytes at `_test_proj/main2.go:246-257` say.

## Model

| member | source | states |
|---|---|---|
| Huffman.Leaf | pkg/huffmanunpack/huffmanunpack.go:83-87 | a pushed leaf is a leaf node carrying exactly its record |
| Huffman.Join | pkg/huffmanunpack/huffmanunpack.go:88-91 | a merged node is internal, has the two popped nodes as children, and its leaves are theirs, left then right |
| Huffman.FullInternalCount | pkg/huffmanunpack/huffmanunpack.go:83-94 | a full tree with n leaves has n - 1 internal nodes |
| Huffman.JoinWeighted | pkg/huffmanunpack/huffmanunpack.go:91 | the uint32 sum of two weighted trees' counts is the wrapped sum of all their leaves |
| Huffman.FreqSumPermutation | pkg/huffmanunpack/huffmanunpack.go:88-93 | the total count of the records does not depend on their order, so the root count the merge loop builds (line 91) is their total whatever order the heap merges them in, and the map copy's root count does not depend on the range order at _test_proj/huffmanunpack/huffmanunpack.go:86-98 |
| MinHeap.Parent | pkg/huffmanunpack/huffmanunpack.go:42 | the parent index `push` computes, with Go's truncation giving 0 for index 0; `ChildIndex` proves only 2k+1 and 2k+2 have parent k |
| MinHeap.IsHeap | pkg/huffmanunpack/huffmanunpack.go:38-80 | the order `push` and `pop` maintain, on counts only: PushKeepsHeap, PopKeepsHeap and HeapRootMin are proved about it |
| MinHeap.SiftUp | pkg/huffmanunpack/huffmanunpack.go:41-51 | sifting up keeps the length |
| MinHeap.HeapPush | pkg/huffmanunpack/huffmanunpack.go:38-52 | push grows the heap by one |
| MinHeap.SmallerChild | pkg/huffmanunpack/huffmanunpack.go:69-71 | the child sift-down compares with is a child of k |
| MinHeap.SiftDown | pkg/huffmanunpack/huffmanunpack.go:65-79 | sifting down keeps the length |
| MinHeap.HeapPop | pkg/huffmanunpack/huffmanunpack.go:54-80 | pop of an empty heap returns nil and changes nothing; otherwise it returns the root and shrinks the heap by one |
| MinHeap.SiftUpMultiset | pkg/huffmanunpack/huffmanunpack.go:41-51 | sift-up only permutes the heap |
| MinHeap.SiftDownMultiset | pkg/huffmanunpack/huffmanunpack.go:65-79 | sift-down only permutes the heap |
| MinHeap.PushMultiset | pkg/huffmanunpack/huffmanunpack.go:38-52 | push adds exactly the pushed node |
| MinHeap.PopMultiset | pkg/huffmanunpack/huffmanunpack.go:54-80 | pop removes exactly the node it returns |
| MinHeap.HeapRootMin | pkg/huffmanunpack/huffmanunpack.go:25-36 | the root of a heap has the smallest count |
| MinHeap.SiftUpHeap | pkg/huffmanunpack/huffmanunpack.go:41-51 | sift-up repairs a heap whose only defect is at the rising node |
| MinHeap.PushKeepsHeap | pkg/huffmanunpack/huffmanunpack.go:38-52 | push keeps the heap property |
| MinHeap.SmallerChildMin | pkg/huffmanunpack/huffmanunpack.go:69-71 | the chosen child has the smallest count of k's children |
| MinHeap.SiftDownHeap | pkg/huffmanunpack/huffmanunpack.go:65-79 | sift-down repairs a heap whose only defect is at the sinking node |
| MinHeap.PopKeepsHeap | pkg/huffmanunpack/huffmanunpack.go:54-80 | pop keeps the heap property of what remains |
| MinHeap.PopReturnsMin | pkg/huffmanunpack/huffmanunpack.go:54-80 | pop of a non-empty heap returns a node of smallest count |
| MinHeap.TiesPopOutOfInsertionOrder | pkg/huffmanunpack/huffmanunpack.go:69-71 | three nodes of equal count pushed as A, B, C pop as A, C, B |
| MinHeap.Heap.constructor | pkg/huffmanunpack/huffmanunpack.go:84 | a new heap is empty |
| MinHeap.Heap.Push | pkg/huffmanunpack/huffmanunpack.go:38-52 | the new slice is the pushed heap; it holds the old nodes plus the new one and is a heap if the old one was |
| MinHeap.Heap.PushGuarded | _test_proj/huffmanunpack/huffmanunpack.go:34-52 | the map-based copy's push, which tests for the root before computing a parent, leaves the same slice as the ordered push |
| MinHeap.Heap.Pop | pkg/huffmanunpack/huffmanunpack.go:54-80 | the returned node and the new slice are those of the pop specification |
| TreeBuilder.PushLeaves | pkg/huffmanunpack/huffmanunpack.go:85-87 | pushing the leaves grows the heap by one per record |
| TreeBuilder.Combine | pkg/huffmanunpack/huffmanunpack.go:88-93 | the merge loop and the final pop, nil for an empty heap; CombineShape proves it turns a heap of good trees into one good tree holding all their leaves |
| TreeBuilder.BuildTree | pkg/huffmanunpack/huffmanunpack.go:83-94 | `makeTreeOrdered` as a function: push the leaves in file order, then combine; BuildTreeShape and BuildTreeInternal are proved about it |
| TreeBuilder.MakeTreeOrdered | pkg/huffmanunpack/huffmanunpack.go:83-94 | returns nil exactly for an empty table; otherwise a full tree whose leaves are the records (a permutation), with n - 1 internal nodes and the wrapped total count at the root |
| TreeBuilder.AllLeavesPermutation | pkg/huffmanunpack/huffmanunpack.go:83-94 | the leaves on a heap do not depend on the order of its trees |
| TreeBuilder.PushLeavesForest | pkg/huffmanunpack/huffmanunpack.go:85-87 | pushing the leaves adds exactly those records as leaves and keeps every tree good |
| TreeBuilder.PopForest | pkg/huffmanunpack/huffmanunpack.go:89-90 | popping removes exactly the popped tree's leaves and keeps the rest good |
| TreeBuilder.MergeStep | pkg/huffmanunpack/huffmanunpack.go:88-92 | one merge round keeps the leaves and shrinks the heap by one |
| TreeBuilder.CombineShape | pkg/huffmanunpack/huffmanunpack.go:88-93 | the merge loop turns a heap of good trees into one good tree holding all their leaves |
| TreeBuilder.BuildTreeShape | pkg/huffmanunpack/huffmanunpack.go:83-94 | the tree is nil iff the table is empty; otherwise full, with the records as leaves, n - 1 internal nodes and the wrapped total count |
| TreeBuilder.BuildTreeInternal | pkg/huffmanunpack/huffmanunpack.go:83-94 | two or more records give a root with children |
| BitStream.ReadBitAt | pkg/huffmanunpack/huffmanunpack.go:105-114 | one readBit call as a function of the cursor |
| BitStream.ReadBitCases | pkg/huffmanunpack/huffmanunpack.go:105-114 | a read yields the bit at the cursor and advances by one, or yields nothing and stays; the end of the budget comes first; a budget of at most 8 bits per byte never panics |
| BitStream.BitReader.constructor | pkg/huffmanunpack/huffmanunpack.go:103 | a new reader starts at bit 0 |
| BitStream.BitReader.ReadBit | pkg/huffmanunpack/huffmanunpack.go:105-114 | the result and the new cursor are those of ReadBitAt |
| BitStream.PackBitsRoundTrip | pkg/huffmanunpack/huffmanunpack.go:105-114 | reading a bit string packed MSB-first gives back every bit |
| Decoder.WalkSymbol | pkg/huffmanunpack/huffmanunpack.go:125-143 | from a leaf the walk emits that leaf at once; from an internal node a reached leaf consumed at least one bit within the budget |
| Decoder.DecodeFrom | pkg/huffmanunpack/huffmanunpack.go:124-145 | the outer loop from cursor pos with the output so far: emits a symbol per walk, stops at the budget, and passes on the walk's exhaustion, dead end or panic; InternalRootReturns, DecodeFromEncoded and DecodeFromGivesEncoding are proved about it |
| Decoder.DecodeSpec | pkg/huffmanunpack/huffmanunpack.go:117-146 | `decode` as a function: nil tree is an error, a leaf root gives empty text for 0 bits and never returns otherwise, an internal root runs DecodeFrom; DecodeInvertsEncode and DecodeYieldsEncoding are its two directions |
| Decoder.Decode | pkg/huffmanunpack/huffmanunpack.go:117-146 | the method's result is that of the decoding specification |
| Decoder.FullTreeNoDeadEnd | pkg/huffmanunpack/huffmanunpack.go:139-141 | with a full tree, such as the builder returns, the nil-child error never occurs |
| Decoder.DecodeInBudget | pkg/huffmanunpack/huffmanunpack.go:105-114 | with a bit count of at most 8 per payload byte, decoding never panics |
| Decoder.DecodeOkWithinPayload | pkg/huffmanunpack/huffmanunpack.go:117-146 | a successful decode declared no more bits than the payload holds |
| Decoder.InternalRootReturns | pkg/huffmanunpack/huffmanunpack.go:124-145 | with an internal root, decoding never ends in the spinning outcome, only extends the output, and reports an exhausted stream only when some symbol's walk started before the end of the budget ran out of bits; termination itself is DecodeFrom's measure `bits - pos` |
| Decoder.LeafRootStalls | pkg/huffmanunpack/huffmanunpack.go:124-144 | a leaf root gives the empty text for 0 bits and never returns for more |
| Decoder.EncodeCons | pkg/huffmanunpack/huffmanunpack.go:117-146 | an encoding is the first symbol's code followed by the encoding of the rest |
| Decoder.WalkFollowsCode | pkg/huffmanunpack/huffmanunpack.go:126-142 | walking along a leaf's code reaches that leaf and consumes exactly the code |
| Decoder.DecodeInvertsEncode | pkg/huffmanunpack/huffmanunpack.go:117-146 | decoding the bits of an encoding with its declared length gives back the message |
| Decoder.DecodePackedEncoding | pkg/huffmanunpack/huffmanunpack.go:117-146 | the same for an encoding packed MSB-first into bytes |
| Decoder.CodeOfSymbols | pkg/huffmanunpack/huffmanunpack.go:117-146 | a symbol has a code exactly when some leaf carries it |
| Decoder.WalkGivesCode | pkg/huffmanunpack/huffmanunpack.go:126-142 | with distinct symbols the bits a walk consumes are the code of the symbol reached |
| Decoder.DecodeYieldsEncoding | pkg/huffmanunpack/huffmanunpack.go:117-146 | with distinct symbols every decoded text encodes to exactly the bits consumed |
| Decoder.DecodeIgnoresPadding | pkg/huffmanunpack/huffmanunpack.go:105-114 | bits past the declared count never change the result |
| Container.U32Bytes | pkg/huffmanunpack/huffmanunpack.go:149-155 | a word is four bytes |
| Container.U32RoundTrip | pkg/huffmanunpack/huffmanunpack.go:149-155 | reading back the little-endian bytes of a word gives the word |
| Container.U32BytesRoundTrip | pkg/huffmanunpack/huffmanunpack.go:149-155 | writing back a word read from four bytes gives the bytes |
| Container.ReadU32At | pkg/huffmanunpack/huffmanunpack.go:149-155 | the little-endian word at pos and the cursor 4 further, or a short read; ReadU32Of and ReadU32Prefix are proved about it |
| Container.ReadRecordAt | pkg/huffmanunpack/huffmanunpack.go:170-184 | one record at pos: count word, symbol byte, three skipped bytes, cursor 8 further, or a short read; ReadRecordOf is its round trip |
| Container.RecordsFrom | pkg/huffmanunpack/huffmanunpack.go:169-185 | the counted record loop appending to the records read so far; RecordsFromShape (ends 8 bytes per record further, fails only by a short read) and RecordsFromBytes (round trip) |
| Container.ParseTable | pkg/huffmanunpack/huffmanunpack.go:158-188 | `getFreqsOrdered`: the three header words, then the counted records in file order; ParseTableRoundTrip and ParseTablePrefix are proved about it |
| Container.ReadTrailerAt | pkg/huffmanunpack/huffmanunpack.go:202-219 | the three trailer words and a payload of the declared byte count, giving payload and bit count; TrailerOf is its round trip |
| Container.ReadContainerAt | pkg/huffmanunpack/huffmanunpack.go:191-219 | everything before `decode`: table, tree (empty table is an error), trailer; ReadContainerOf and ReadContainerFailures are proved about it |
| Container.UnpackAt | pkg/huffmanunpack/huffmanunpack.go:191-221 | `UnpackFromReader` as a function: read the container, then decode; UnpackContainer, UnpackRoundTrip and TruncatedContainerFails are proved about it |
| Container.Unpack | pkg/huffmanunpack/huffmanunpack.go:223 | `UnpackBytes` as a function: UnpackAt from byte 0 |
| Container.UnpackChecked | pkg/huffmanunpack/huffmanunpack.go:202-220 | the corrected unpack, rejecting a bit count above 8 per payload byte before decoding; UnpackCheckedNeverPanics is proved about it |
| Container.ReadContainerFailures | pkg/huffmanunpack/huffmanunpack.go:191-219 | before decoding, unpacking fails only on a short read or an empty table |
| Container.ByteReader.constructor | pkg/huffmanunpack/huffmanunpack.go:223 | a new reader starts at byte 0 |
| Container.ByteReader.ReadU32 | pkg/huffmanunpack/huffmanunpack.go:149-155 | reads the word at the cursor, or fails and consumes what is left |
| Container.ByteReader.ReadFull | pkg/huffmanunpack/huffmanunpack.go:216-219 | reads n bytes at the cursor, or fails and consumes what is left |
| Container.GetFreqsOrdered | pkg/huffmanunpack/huffmanunpack.go:158-188 | the records in file order and the cursor after them, as the table parser gives |
| Container.ReadRecord | pkg/huffmanunpack/huffmanunpack.go:173-185 | one record: the count, the symbol, three skipped bytes |
| Container.UnpackFromReader | pkg/huffmanunpack/huffmanunpack.go:191-221 | the result is the unpacking specification at the reader's cursor |
| Container.ReadTrailer | pkg/huffmanunpack/huffmanunpack.go:202-219 | the three trailer words and the payload |
| Container.UnpackBytes | pkg/huffmanunpack/huffmanunpack.go:223 | the result is the unpacking specification over the bytes |
| Container.ContainerBytes | pkg/huffmanunpack/huffmanunpack.go:158-221 | a container is 24 bytes of words, 8 per record and the payload |
| Container.ParseTableRoundTrip | pkg/huffmanunpack/huffmanunpack.go:158-188 | the parser reads back the records written, in order and with duplicates, and stops right after them |
| Container.ReadContainerOf | pkg/huffmanunpack/huffmanunpack.go:191-218 | reading a container gives the tree of its records, its payload and its bit count, whatever follows |
| Container.UnpackContainer | pkg/huffmanunpack/huffmanunpack.go:191-221 | unpacking a container decodes its payload with the tree of its records |
| Container.UnpackRoundTrip | pkg/huffmanunpack/huffmanunpack.go:191-223 | packing the Huffman encoding of a message with at least two records unpacks to the message |
| Container.TruncatedContainerFails | pkg/huffmanunpack/huffmanunpack.go:149-218 | a container cut before its last byte fails with a short read |
| Container.OverlongBitCountPanics | pkg/huffmanunpack/huffmanunpack.go:202-220 | a container declaring bits but no payload makes decoding index past the payload |
| Container.OverlongBitCountExample | pkg/huffmanunpack/huffmanunpack.go:202-220 | a 40-byte container that panics |
| Container.UnpackCheckedNeverPanics | pkg/huffmanunpack/huffmanunpack.go:202-220 | with the bit count checked, unpacking never panics, differs only by the new error, and keeps every success |
| MapVariant.RecordsMap | _test_proj/huffmanunpack/huffmanunpack.go:186-202 | the map the record loop builds, each record overwriting its symbol's count; RecordsMapKeys and RecordsMapLastWins state its keys and values |
| MapVariant.ParseFreqMap | _test_proj/huffmanunpack/huffmanunpack.go:174-204 | `getFreqs` as a function: the ordered table parser's records put into the map; MapMatchesOrdered relates it to the ordered parser |
| MapVariant.MapEntries | _test_proj/huffmanunpack/huffmanunpack.go:88-90 | the leaves pushed when the `range` visits the keys in a given order; MapEntriesOf states exactly which |
| MapVariant.UnpackMapAt | _test_proj/huffmanunpack/huffmanunpack.go:208-238 | `unpackFromReader` for a given iteration order: map, tree, empty-map error, trailer, decode; MapMatchesOrdered, MapUnpackIsEncoding and MapOrderChangesOutput are proved about it |
| MapVariant.RecordsMapKeys | _test_proj/huffmanunpack/huffmanunpack.go:174-204 | the map has a key exactly for the symbols some record carries |
| MapVariant.RecordsMapLastWins | _test_proj/huffmanunpack/huffmanunpack.go:174-204 | a symbol's count is that of its last record |
| MapVariant.GetFreqs | _test_proj/huffmanunpack/huffmanunpack.go:174-204 | the map and the cursor after the table, as the map parser gives |
| MapVariant.MapEntriesOf | _test_proj/huffmanunpack/huffmanunpack.go:88-90 | the pushed leaves are exactly the map's entries, one per visited key, with distinct symbols |
| MapVariant.MakeTree | _test_proj/huffmanunpack/huffmanunpack.go:86-98 | for some iteration order of the map, the tree is the ordered builder's tree of the entries in that order |
| MapVariant.MapTreeShape | _test_proj/huffmanunpack/huffmanunpack.go:86-98 | the tree is nil iff the map is empty; otherwise full, with distinct symbols, one leaf per map entry |
| MapVariant.OrderKeepsLeaves | _test_proj/huffmanunpack/huffmanunpack.go:86-98 | every iteration order gives the same leaves and the same root count |
| MapVariant.UnpackFromReaderMap | _test_proj/huffmanunpack/huffmanunpack.go:208-238 | the result is the map-variant unpacking for the order its range took |
| MapVariant.UnpackBytesMap | _test_proj/huffmanunpack/huffmanunpack.go:240-242 | the same over a fresh reader |
| MapVariant.RecordsMapInFileOrder | _test_proj/huffmanunpack/huffmanunpack.go:174-204 | with distinct symbols, file order is an iteration order and yields the records as written |
| MapVariant.MapMatchesOrdered | _test_proj/huffmanunpack/huffmanunpack.go:208-238 | with distinct symbols and file order, the map copy unpacks as the ordered one |
| MapVariant.MapUnpackIsEncoding | _test_proj/huffmanunpack/huffmanunpack.go:208-238 | every successful map unpack encodes, with its tree, to the bits consumed |
| MapVariant.MapOrderChangesOutput | _test_proj/huffmanunpack/huffmanunpack.go:86-98 | one container, two iteration orders, two outputs (`A` and `B`) |
| Demo.DemoUnpack | _test_proj/main2.go:245-272 | the demonstration vector unpacks to `53801-198-55428-4050\|53802-0-17725-70000\|` |
| Demo.DemoPaddingIgnored | _test_proj/main2.go:245-272 | any payload agreeing on the 133 declared bits unpacks to the same text |
| Demo.DemoMapVariant | _test_proj/huffmanunpack/huffmanunpack.go:208-242 | the map copy, visiting keys in file order, unpacks the vector to the same text |
| MarketText.Split | pkg/bdoapi/bdoapi.go:248 | a split has at least one piece |
| MarketText.SplitN | pkg/bdoapi/bdoapi.go:255 | SplitN with limit n has between 1 and n pieces |
| MarketText.JoinSplit | pkg/bdoapi/bdoapi.go:248 | joining the pieces of a split gives back the text |
| MarketText.SplitPiecesFree | pkg/bdoapi/bdoapi.go:248 | no piece holds the separator |
| MarketText.SplitJoin | pkg/bdoapi/bdoapi.go:248 | pieces free of the separator split back out of their join |
| MarketText.SplitNJoin | pkg/bdoapi/bdoapi.go:255 | n pieces, all but the last free of the separator, come back out of SplitN with limit n |
| MarketText.SplitNFew | pkg/bdoapi/bdoapi.go:255-258 | with no more than n pieces, SplitN and Split agree |
| MarketText.SplitNMany | pkg/bdoapi/bdoapi.go:255-258 | with n or more pieces, SplitN has n, the first n - 1 as Split's, the last the rest joined |
| MarketText.SplitLength | pkg/bdoapi/bdoapi.go:255-258 | a text splits into several pieces iff it holds the separator |
| MarketText.SplitSnoc | pkg/bdoapi/bdoapi.go:248-254 | a trailing separator adds one empty piece |
| MarketText.SplitAppend | pkg/bdoapi/bdoapi.go:345 | splitting two texts joined by the separator gives the pieces of each |
| MarketText.ParseInt | pkg/bdoapi/bdoapi.go:259 | a parsed field is non-empty and holds no `\|` |
| MarketText.ParseFormat | pkg/bdoapi/bdoapi.go:259-274 | parsing a formatted int64 gives it back |
| MarketText.FormatIntChars | pkg/bdoapi/bdoapi.go:350-353 | a formatted number holds a `-` only in front and only when negative |
| MarketText.Collect | pkg/bdoapi/bdoapi.go:251-281 | the shared shape of the three parse loops over the first n pieces: kept values appended in order, skips ignored, the first failure returned; CollectOk, CollectFirstFailure and CollectErrStays state this |
| MarketText.CollectOk | pkg/bdoapi/bdoapi.go:251-281 | a parse loop succeeds iff no record fails, and then yields the kept values in order |
| MarketText.CollectFirstFailure | pkg/bdoapi/bdoapi.go:251-281 | a failing loop reports the first failing record's error |
| MarketText.CollectErrStays | pkg/bdoapi/bdoapi.go:256-274 | after the first failure later records change nothing |
| MarketText.KeptIndices | pkg/bdoapi/bdoapi.go:251-281 | the kept records' positions are increasing and hold every kept record |
| MarketText.KeptAt | pkg/bdoapi/bdoapi.go:275-280 | the k-th object comes from the k-th kept record |
| MarketText.MarketListStep | pkg/bdoapi/bdoapi.go:252-274 | one piece of `GetMarketList`: empty is skipped, fewer than 4 `-` fields is WrongFormat, else the four fields; MarketListFieldCount, MarketRecordRoundTrip and MarketListFailure are proved about it |
| MarketText.MarketList | pkg/bdoapi/bdoapi.go:248-282 | `GetMarketList` on the raw text: Split on `\|`, then the loop; MarketListRoundTrip, MarketListPieces, MarketListFirstError and MarketListTrailingBar are proved about it |
| MarketText.MarketFields | pkg/bdoapi/bdoapi.go:259-274 | four fields give an object iff all four parse; a failure is a bad field at the record index |
| MarketText.MarketFieldsNamesField | pkg/bdoapi/bdoapi.go:259-274 | the field a failure names is the first, in the order item id, current stock, total trades, base price, that does not parse |
| MarketText.GetMarketList | pkg/bdoapi/bdoapi.go:248-282 | the method's result is that of the market-list specification |
| MarketText.MarketRecordRoundTrip | pkg/bdoapi/bdoapi.go:255-280 | an object with non-negative first three fields, written as a record, reads back as itself |
| MarketText.LeadingDashFails | pkg/bdoapi/bdoapi.go:255-262 | a record starting with `-` always fails |
| MarketText.LinesSplit | pkg/bdoapi/bdoapi.go:248 | `\|`-terminated records split back into the records and one empty piece |
| MarketText.MarketListRoundTrip | pkg/bdoapi/bdoapi.go:248-282 | objects written as a `\|`-terminated list read back as the same objects |
| MarketText.MarketListPieces | pkg/bdoapi/bdoapi.go:251-281 | on success, one object per non-empty piece, in order, each read from its piece |
| MarketText.MarketListFirstError | pkg/bdoapi/bdoapi.go:251-274 | on failure, the error names the first failing piece, which is not empty |
| MarketText.MarketListFailure | pkg/bdoapi/bdoapi.go:252-274 | a failing record is non-empty and the error carries its index |
| MarketText.MarketListFieldCount | pkg/bdoapi/bdoapi.go:255-258 | a record is malformed iff it has fewer than four `-` fields |
| MarketText.MarketListTrailingBar | pkg/bdoapi/bdoapi.go:248-254 | a trailing `\|` changes nothing |
| MarketText.SubListStep | pkg/bdoapi/bdoapi.go:302-324 | one piece of `GetMarketSubList`: empty is skipped, fewer than 10 `-` fields is WrongFormat, else fields 1, 5, 6 and 9; SubListFieldCount and SubListRecord are proved about it |
| MarketText.MarketSubList | pkg/bdoapi/bdoapi.go:298-333 | `GetMarketSubList` on `resultMsg`: Split on `\|`, then the loop; SubListPieces and SubListTrailingBar are proved about it |
| MarketText.SubListFields | pkg/bdoapi/bdoapi.go:309-324 | fields 1, 5, 6 and 9 give an object iff all four parse; a failure is a bad field at the record index |
| MarketText.SubListFieldsNamesField | pkg/bdoapi/bdoapi.go:309-324 | the field a failure names is the first of fields 1, 5, 6 and 9 (item id, current stock, total trades, last trade price), in that order, that does not parse |
| MarketText.GetMarketSubList | pkg/bdoapi/bdoapi.go:298-333 | the method's result is that of the sub-list specification |
| MarketText.SubListRecord | pkg/bdoapi/bdoapi.go:305-331 | ten fields joined by `-`, the four used ones parsing, read back as their object |
| MarketText.SubListFieldCount | pkg/bdoapi/bdoapi.go:305-308 | a record is malformed iff it has fewer than ten `-` fields |
| MarketText.SubListPieces | pkg/bdoapi/bdoapi.go:301-332 | on success, one object per non-empty piece, in order |
| MarketText.SubListTrailingBar | pkg/bdoapi/bdoapi.go:298-304 | a trailing `\|` changes nothing |
| MarketText.BiddingStep | pkg/bdoapi/bdoapi.go:347-367 | one bid: empty or not exactly 3 `-` fields is skipped silently, else the three fields; BiddingRecordRoundTrip and BiddingNegativeSkipped are proved about it |
| MarketText.BiddingOrders | pkg/bdoapi/bdoapi.go:345-368 | the orders collected from the raw text; BiddingPieces and BiddingInfoRoundTrip are proved about it |
| MarketText.MinSaleUpTo | pkg/bdoapi/bdoapi.go:371-377 | the running minimum over selling orders starting at the int64 maximum; MinSaleUpToSpec states it |
| MarketText.MaxBuyUpTo | pkg/bdoapi/bdoapi.go:372-381 | the running maximum over buying orders starting at 0; MaxBuyUpToSpec states it |
| MarketText.BestPrices | pkg/bdoapi/bdoapi.go:371-386 | the scan with the sentinel reset to 0; BestPricesMeaning and BestPricesOrderFree state it |
| MarketText.BiddingInfo | pkg/bdoapi/bdoapi.go:345-386 | `GetBiddingInfoList` on the raw text: the orders, then the scan; BiddingInfoRoundTrip, BiddingFailStops and BiddingTrailingBar are proved about it |
| MarketText.BiddingFields | pkg/bdoapi/bdoapi.go:355-367 | three fields give an order iff all parse; a failure is a bad field carrying the main key |
| MarketText.BiddingFieldsNamesField | pkg/bdoapi/bdoapi.go:355-366 | the field a failure names is the first, in the order price, sale, buy, that does not parse |
| MarketText.GetBiddingInfoList | pkg/bdoapi/bdoapi.go:345-386 | the method's result is that of the bidding specification |
| MarketText.BiddingFailStops | pkg/bdoapi/bdoapi.go:355-366 | a field that fails to parse ends the call with its error |
| MarketText.BiddingDone | pkg/bdoapi/bdoapi.go:371-386 | after the last piece, the result is the scan of the orders |
| MarketText.BiddingRecordRoundTrip | pkg/bdoapi/bdoapi.go:350-367 | an order without negative fields reads back as itself |
| MarketText.BiddingNegativeSkipped | pkg/bdoapi/bdoapi.go:350-353 | an order with a negative field has more than three `-` fields and is skipped |
| MarketText.BiddingInfoRoundTrip | pkg/bdoapi/bdoapi.go:345-386 | orders without negative fields, written as text, are read back and scanned as they are |
| MarketText.BiddingPieces | pkg/bdoapi/bdoapi.go:346-368 | on success, one order per non-empty piece with exactly three fields, in order |
| MarketText.BiddingTrailingBar | pkg/bdoapi/bdoapi.go:345-349 | a trailing `\|` changes nothing |
| MarketText.MinSaleUpToSpec | pkg/bdoapi/bdoapi.go:371-377 | the running minimum is at most every selling price and is one of them, unless still the int64 maximum |
| MarketText.MaxBuyUpToSpec | pkg/bdoapi/bdoapi.go:372-380 | the running maximum is at least 0 and every buying price, and is one of them unless 0 |
| MarketText.BestPricesMeaning | pkg/bdoapi/bdoapi.go:371-386 | the lowest selling price below the int64 maximum, else 0; the highest buying price, else 0 |
| MarketText.BestPricesOrderFree | pkg/bdoapi/bdoapi.go:371-386 | the scan does not depend on the order of the orders |
| MarketText.SentinelHidesSeller | pkg/bdoapi/bdoapi.go:371-386 | one seller priced at the int64 maximum is reported as no seller |
| MarketText.LowestSale | pkg/bdoapi/bdoapi.go:371-377 | the corrected minimum, None while no selling order has been seen; LowestSaleSpec states it |
| MarketText.BestPricesChecked | pkg/bdoapi/bdoapi.go:371-386 | the corrected scan, whose selling side is None for no selling order and otherwise the lowest selling price, 0 and the int64 maximum included; BestPricesCheckedMeaning, BestPricesAgree and CheckedKeepsSellerApart state it |
| MarketText.LowestSaleSpec | pkg/bdoapi/bdoapi.go:371-377 | the corrected minimum is None iff there is no seller, else the lowest selling price |
| MarketText.BestPricesCheckedMeaning | pkg/bdoapi/bdoapi.go:371-386 | the corrected selling side is None iff there is no selling order, and otherwise the lowest selling price; the buying side is the highest buying price or 0 |
| MarketText.CheckedKeepsSellerApart | pkg/bdoapi/bdoapi.go:371-386 | a seller priced 0 and a seller priced at the int64 maximum are both reported by the corrected scan, where the scan as written gives the 0 of no seller for the first as well as for none |
| MarketText.BestPricesAgree | pkg/bdoapi/bdoapi.go:371-386 | both scans agree unless a seller is priced at the int64 maximum, the corrected None read as the 0 reported for no seller |
| MarketDemo.AsText | _test_proj/main2.go:271 | bytes become characters one for one |
| MarketDemo.DemoMarketList | _test_proj/main2.go:245-272 | the demonstration output, read by the market-list parser, gives objects (53801, 198, 55428, 4050) and (53802, 0, 17725, 70000) |

## Left out

- The HTTP requests (`doRequest`, `doRequestUnpack`), the payload tables, the category and main-key arguments and the JSON decoding of `GetMarketSubList` are not modelled. Each parser takes the raw text as input.
- The formatted error messages are not modelled. A parse error is `WrongFormat(record)` or `BadField(record, field)`. `strconv`'s error kinds (syntax, range) are not told apart.
- `GetBiddingInfoList`'s `(-1, -1, err)` return is the `Err` case of a `Result`.
- `io.Reader` in general is not modelled. The reader is a byte string with a cursor, as `bytes.Reader` is. A short read of either kind (`io.EOF`, `io.ErrUnexpectedEOF`) is `ShortRead`.
- The demonstration `main` is not modelled: file opening, printing and exit codes. Its vector and expected output are modelled.
- Go's randomised map iteration order is not modelled as randomness. `MapVariant.MakeTree` picks the order nondeterministically and returns it as a ghost.
- Go's `string(bytes)` conversion is modelled only for bytes below 128 (`MarketDemo.AsText`).
- `NeverReturns` stands for the infinite loop of `decode` on a single-leaf tree. A value is returned where Go never returns.
- Container.GetFreqsOrdered: does not model the `make([]freqEntry, 0, chars)` at pkg/huffmanunpack/huffmanunpack.go:171, sized by the header's record count before any record is read; a count near 2^32 asks for tens of gigabytes and may end the Go process with an out-of-memory error, where the model reports `ShortRead`.
- Container.UnpackFromReader: does not model the `make([]byte, packedBytes)` at pkg/huffmanunpack/huffmanunpack.go:216, sized by the trailer's byte count before the payload is read; a count near 2^32 asks for about 4 GB and may fail the same way, where the model reports `ShortRead`.
- MapVariant.GetFreqs: does not model the `make(map[byte]uint32, charsCount)` at _test_proj/huffmanunpack/huffmanunpack.go:186, a size hint taken from the header; allocation failures are outside the model.
- MinHeap.Heap.Push, MinHeap.Heap.Pop, MinHeap.Heap.PushGuarded, TreeBuilder.MakeTreeOrdered, Decoder.Decode, Container.GetFreqsOrdered, Container.UnpackFromReader and the other methods use the slice, map and pointer structure only as values: no aliasing between heap slots and no reuse of Go slice capacity.

## Findings

| source | as written | input that shows it | evidently intended | confidence | as-written member | corrected member |
|---|---|---|---|---|---|---|
| pkg/huffmanunpack/huffmanunpack.go:202-220 | the declared bit count is never compared with the payload length, so `decode` indexes past the payload and panics | a 40-byte container with records A:1 and B:1, bit count 1 and no payload byte | reject a bit count above 8 bits per payload byte with an error | medium; not executed | Container.OverlongBitCountExample | Container.UnpackCheckedNeverPanics |
| pkg/bdoapi/bdoapi.go:371-386 | `math.MaxInt64` is both the "no seller" start value and a possible price, so a seller priced at the int64 maximum is reported as no seller (0) | one order: price 9223372036854775807, sale 1, buy 0 | keep "no seller" apart from every price: report no selling price as absent rather than as 0 (a seller priced 0 is indistinguishable from none as written, too) | low; not executed | MarketText.SentinelHidesSeller | MarketText.BestPricesCheckedMeaning |
