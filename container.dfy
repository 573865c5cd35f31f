/**
 * The container format and the public entry points
 * (pkg/huffmanunpack/huffmanunpack.go:148-223): three little-endian uint32
 * header words (file length, a zero word, the record count N), N records of
 * eight bytes (a uint32 count, the symbol byte, three padding bytes), three
 * trailer words (packed bit count, packed byte count, unpacked byte count)
 * and the payload. The byte source is a byte string with a cursor; every
 * short read is `ShortRead` and leaves the cursor at the end, as a
 * `bytes.Reader` does.
 */
module Container {
  import opened Wrappers
  import opened Huffman
  import opened BitStream
  import opened TreeBuilder
  import opened Decoder

  // ---------------------------------------------------------------------
  // Little-endian words

  /** `binary.Read(r, binary.LittleEndian, &v)` applied to four bytes. */
  function LeU32(w: seq<byte>): u32
    requires |w| == 4
  {
    var b0, b1, b2, b3: int := w[0], w[1], w[2], w[3];
    b0 + 0x100 * b1 + 0x1_0000 * b2 + 0x100_0000 * b3
  }

  /** The four little-endian bytes of a uint32. */
  function U32Bytes(v: u32): (w: seq<byte>)
    ensures |w| == 4
  {
    [v % 0x100, v / 0x100 % 0x100, v / 0x1_0000 % 0x100, v / 0x100_0000]
  }

  /** Writing a word and reading it back gives the word. */
  lemma U32RoundTrip(v: u32)
    ensures LeU32(U32Bytes(v)) == v
  {
    var w := U32Bytes(v);
    var q1, q2, q3 := v / 0x100, v / 0x1_0000, v / 0x100_0000;
    assert v == w[0] + 0x100 * q1;
    DivUnique(v, 0x1_0000, q1 / 0x100, w[0] + 0x100 * (q1 % 0x100));
    assert q1 == w[1] + 0x100 * q2;
    DivUnique(v, 0x100_0000, q2 / 0x100, w[0] + 0x100 * w[1] + 0x1_0000 * (q2 % 0x100));
    assert q2 == w[2] + 0x100 * q3;
  }

  /** Reading four bytes and writing the word back gives the bytes. */
  lemma U32BytesRoundTrip(w: seq<byte>)
    requires |w| == 4
    ensures U32Bytes(LeU32(w)) == w
  {
    var v := LeU32(w);
    var b0, b1, b2, b3: nat := w[0], w[1], w[2], w[3];
    DivModUnique(v, 0x100, b1 + 0x100 * b2 + 0x1_0000 * b3, b0);
    DivModUnique(b1 + 0x100 * b2 + 0x1_0000 * b3, 0x100, b2 + 0x100 * b3, b1);
    DivModUnique(v, 0x1_0000, b2 + 0x100 * b3, b0 + 0x100 * b1);
    DivModUnique(b2 + 0x100 * b3, 0x100, b3, b2);
    DivModUnique(v, 0x100_0000, b3, b0 + 0x100 * b1 + 0x1_0000 * b2);
  }

  lemma DivModUnique(x: nat, d: nat, q: nat, r: nat)
    requires 0 < d && r < d && x == q * d + r
    ensures x / d == q && x % d == r
  {
    DivUnique(x, d, q, r);
  }

  // ---------------------------------------------------------------------
  // Reading at a position: the specification of the byte source

  /** Attaches the new cursor to a successful read. */
  function WithPos<T>(r: Result<T, Failure>, pos: nat): Result<(T, nat), Failure> {
    match r
    case Ok(v) => Ok((v, pos))
    case Err(e) => Err(e)
  }

  /** `io.ReadFull` of n bytes at pos: the bytes and the new cursor, or a short read. */
  function TakeAt(data: seq<byte>, pos: nat, n: nat): Result<(seq<byte>, nat), Failure> {
    if pos + n <= |data| then Ok((data[pos..pos + n], pos + n)) else Err(ShortRead)
  }

  /** `readU32` at pos. */
  function ReadU32At(data: seq<byte>, pos: nat): Result<(u32, nat), Failure> {
    if pos + 4 <= |data| then Ok((LeU32(data[pos..pos + 4]), pos + 4)) else Err(ShortRead)
  }

  /** One table record at pos: count, symbol byte, three ignored padding bytes. */
  function ReadRecordAt(data: seq<byte>, pos: nat): Result<(FreqEntry, nat), Failure> {
    if pos + 8 <= |data| then Ok((FreqEntry(data[pos + 4], LeU32(data[pos..pos + 4])), pos + 8))
    else Err(ShortRead)
  }

  /** The remaining n records from pos, appended to the records `acc` read so far. */
  function RecordsFrom(data: seq<byte>, pos: nat, n: nat, acc: seq<FreqEntry>): Result<(seq<FreqEntry>, nat), Failure>
    decreases n
  {
    if n == 0 then Ok((acc, pos))
    else
      var rec :- ReadRecordAt(data, pos);
      RecordsFrom(data, rec.1, n - 1, acc + [rec.0])
  }

  /** `getFreqsOrdered` from pos: the records in file order and the cursor after them. */
  function ParseTable(data: seq<byte>, pos: nat): Result<(seq<FreqEntry>, nat), Failure> {
    var fileLen :- ReadU32At(data, pos);
    var always0 :- ReadU32At(data, fileLen.1);
    var chars :- ReadU32At(data, always0.1);
    RecordsFrom(data, chars.1, chars.0, [])
  }

  /** The three trailer words and the payload: the payload, the declared bit count and the cursor after them. */
  function ReadTrailerAt(data: seq<byte>, pos: nat): Result<((seq<byte>, u32), nat), Failure> {
    var packedBits :- ReadU32At(data, pos);
    var packedBytes :- ReadU32At(data, packedBits.1);
    var unpacked :- ReadU32At(data, packedBytes.1);
    var packed :- TakeAt(data, unpacked.1, packedBytes.0);
    Ok(((packed.0, packedBits.0), packed.1))
  }

  /**
   * Everything `UnpackFromReader` does before it calls `decode`: the table,
   * the tree, the trailer and the payload. Yields the tree, the payload and
   * the declared bit count.
   */
  function ReadContainerAt(data: seq<byte>, pos: nat): Result<(NodeRef, seq<byte>, u32), Failure> {
    var table :- ParseTable(data, pos);
    var tree := BuildTree(table.0);
    if tree.Nil? then Err(EmptyFrequencyTable)
    else
      var trailer :- ReadTrailerAt(data, table.1);
      Ok((tree, trailer.0.0, trailer.0.1))
  }

  /** Before decoding, unpacking fails only on a short read or an empty table. */
  lemma ReadContainerFailures(data: seq<byte>, pos: nat)
    ensures ReadContainerAt(data, pos).Err? ==> ReadContainerAt(data, pos).error in {ShortRead, EmptyFrequencyTable}
  {
    if pos + 12 <= |data| {
      RecordsFromShape(data, pos + 12, LeU32(data[pos + 8..pos + 12]), []);
    }
  }

  /** `UnpackFromReader` from pos. */
  function UnpackAt(data: seq<byte>, pos: nat): Result<seq<byte>, Failure> {
    var c :- ReadContainerAt(data, pos);
    DecodeSpec(c.0, c.1, c.2)
  }

  /** `UnpackBytes`. */
  function Unpack(data: seq<byte>): Result<seq<byte>, Failure> {
    UnpackAt(data, 0)
  }

  // ---------------------------------------------------------------------
  // The byte source and the parser, step by step

  /** A `bytes.Reader`: the bytes and a read cursor. */
  class ByteReader {
    const data: seq<byte>
    var pos: nat

    constructor (data: seq<byte>)
      ensures this.data == data && pos == 0
    {
      this.data := data;
      pos := 0;
    }

    /** `readU32`; a short read consumes what is left. */
    method ReadU32() returns (r: Result<u32, Failure>)
      modifies this
      ensures ReadU32At(data, old(pos)) == WithPos(r, pos)
      ensures r.Err? ==> pos == |data|
    {
      if pos + 4 > |data| {
        pos := |data|;
        return Err(ShortRead);
      }
      r := Ok(LeU32(data[pos..pos + 4]));
      pos := pos + 4;
    }

    /** `io.ReadFull` of n bytes; a short read consumes what is left. */
    method ReadFull(n: nat) returns (r: Result<seq<byte>, Failure>)
      modifies this
      ensures TakeAt(data, old(pos), n) == WithPos(r, pos)
      ensures r.Err? ==> pos == |data|
    {
      if pos + n > |data| {
        pos := |data|;
        return Err(ShortRead);
      }
      r := Ok(data[pos..pos + n]);
      pos := pos + n;
    }
  }

  /** `getFreqsOrdered`: the header words, then a counted loop over the records. */
  method GetFreqsOrdered(r: ByteReader) returns (res: Result<seq<FreqEntry>, Failure>)
    modifies r
    ensures ParseTable(r.data, old(r.pos)) == WithPos(res, r.pos)
  {
    var fileLen :- r.ReadU32();
    var always0 :- r.ReadU32();
    var chars :- r.ReadU32();
    ghost var start := r.pos;
    var entries: seq<FreqEntry> := [];
    var i := 0;
    while i < chars
      invariant i <= chars
      invariant RecordsFrom(r.data, r.pos, chars - i, entries) == RecordsFrom(r.data, start, chars, [])
      decreases chars - i
    {
      var e :- ReadRecord(r);
      entries := entries + [e];
      i := i + 1;
    }
    return Ok(entries);
  }

  /** One record of the loop body: the count, the symbol byte, three padding bytes. */
  method ReadRecord(r: ByteReader) returns (res: Result<FreqEntry, Failure>)
    modifies r
    ensures ReadRecordAt(r.data, old(r.pos)) == WithPos(res, r.pos)
  {
    var cnt :- r.ReadU32();
    var c :- r.ReadFull(1);
    var pad :- r.ReadFull(3);
    return Ok(FreqEntry(c[0], cnt));
  }

  /** `UnpackFromReader`. */
  method UnpackFromReader(r: ByteReader) returns (res: Result<seq<byte>, Failure>)
    modifies r
    ensures res == UnpackAt(r.data, old(r.pos))
  {
    var entries :- GetFreqsOrdered(r);
    var tree := MakeTreeOrdered(entries);
    if tree.Nil? {
      return Err(EmptyFrequencyTable);
    }
    var trailer :- ReadTrailer(r);
    res := Decode(tree, trailer.0, trailer.1);
  }

  /** The trailer reads of `UnpackFromReader`: bit count, byte count, unused unpacked count, payload. */
  method ReadTrailer(r: ByteReader) returns (res: Result<(seq<byte>, u32), Failure>)
    modifies r
    ensures ReadTrailerAt(r.data, old(r.pos)) == WithPos(res, r.pos)
  {
    var packedBits :- r.ReadU32();
    var packedBytes :- r.ReadU32();
    var unpacked :- r.ReadU32();
    var packed :- r.ReadFull(packedBytes);
    return Ok((packed, packedBits));
  }

  /** `UnpackBytes`: a fresh reader over the bytes. */
  method UnpackBytes(b: seq<byte>) returns (res: Result<seq<byte>, Failure>)
    ensures res == Unpack(b)
  {
    var r := new ByteReader(b);
    res := UnpackFromReader(r);
  }

  // ---------------------------------------------------------------------
  // Writing a container, and reading it back

  /** One table record with its padding bytes zero. */
  function RecordBytes(e: FreqEntry): (w: seq<byte>)
    ensures |w| == 8
  {
    U32Bytes(e.f) + [e.c, 0, 0, 0]
  }

  function RecordsBytes(entries: seq<FreqEntry>): (w: seq<byte>)
    ensures |w| == 8 * |entries|
  {
    if entries == [] then [] else RecordBytes(entries[0]) + RecordsBytes(entries[1..])
  }

  /** The header words and the records. */
  function TableBytes(fileLen: u32, always0: u32, entries: seq<FreqEntry>): (w: seq<byte>)
    requires |entries| < U32_MODULUS
    ensures |w| == 12 + 8 * |entries|
  {
    U32Bytes(fileLen) + U32Bytes(always0) + U32Bytes(|entries|) + RecordsBytes(entries)
  }

  /** The trailer words and the payload. */
  function TrailerBytes(packedBits: u32, unpacked: u32, payload: seq<byte>): (w: seq<byte>)
    requires |payload| < U32_MODULUS
    ensures |w| == 12 + |payload|
  {
    U32Bytes(packedBits) + U32Bytes(|payload|) + U32Bytes(unpacked) + payload
  }

  /** A whole container. */
  function ContainerBytes(fileLen: u32, always0: u32, entries: seq<FreqEntry>, packedBits: u32, unpacked: u32, payload: seq<byte>): (w: seq<byte>)
    requires |entries| < U32_MODULUS && |payload| < U32_MODULUS
    ensures |w| == 24 + 8 * |entries| + |payload|
  {
    TableBytes(fileLen, always0, entries) + TrailerBytes(packedBits, unpacked, payload)
  }

  lemma ReadU32Of(pre: seq<byte>, v: u32, post: seq<byte>)
    ensures ReadU32At(pre + U32Bytes(v) + post, |pre|) == Ok((v, |pre| + 4))
  {
    var data := pre + U32Bytes(v) + post;
    assert data[|pre|..|pre| + 4] == U32Bytes(v);
    U32RoundTrip(v);
  }

  lemma ReadRecordOf(pre: seq<byte>, e: FreqEntry, post: seq<byte>)
    ensures ReadRecordAt(pre + RecordBytes(e) + post, |pre|) == Ok((e, |pre| + 8))
  {
    var data := pre + RecordBytes(e) + post;
    assert data[|pre|..|pre| + 4] == U32Bytes(e.f);
    assert data[|pre| + 4] == e.c;
    U32RoundTrip(e.f);
  }

  lemma {:induction false} RecordsFromBytes(pre: seq<byte>, entries: seq<FreqEntry>, post: seq<byte>, acc: seq<FreqEntry>)
    ensures RecordsFrom(pre + RecordsBytes(entries) + post, |pre|, |entries|, acc) == Ok((acc + entries, |pre| + 8 * |entries|))
    decreases |entries|
  {
    if entries == [] {
      assert acc + entries == acc;
    } else {
      var e, rest := entries[0], entries[1..];
      var pre' := pre + RecordBytes(e);
      assert pre + RecordsBytes(entries) + post == pre' + RecordsBytes(rest) + post;
      ReadRecordOf(pre, e, RecordsBytes(rest) + post);
      assert pre + RecordBytes(e) + (RecordsBytes(rest) + post) == pre' + RecordsBytes(rest) + post;
      RecordsFromBytes(pre', rest, post, acc + [e]);
      assert acc + [e] + rest == acc + entries;
    }
  }

  /** The three header words, read back. */
  lemma HeaderOf(fileLen: u32, always0: u32, n: u32, post: seq<byte>)
    ensures var data := U32Bytes(fileLen) + U32Bytes(always0) + U32Bytes(n) + post;
            && ReadU32At(data, 0) == Ok((fileLen, 4))
            && ReadU32At(data, 4) == Ok((always0, 8))
            && ReadU32At(data, 8) == Ok((n, 12))
  {
    var w0, w1, w2 := U32Bytes(fileLen), U32Bytes(always0), U32Bytes(n);
    var data := w0 + w1 + w2 + post;
    assert data[0..4] == w0 && data[4..8] == w1 && data[8..12] == w2;
    U32RoundTrip(fileLen);
    U32RoundTrip(always0);
    U32RoundTrip(n);
  }

  /** The parser reads back the records written, in order and with duplicates, and stops right after them. */
  lemma ParseTableRoundTrip(fileLen: u32, always0: u32, entries: seq<FreqEntry>, post: seq<byte>)
    requires |entries| < U32_MODULUS
    ensures ParseTable(TableBytes(fileLen, always0, entries) + post, 0) == Ok((entries, 12 + 8 * |entries|))
  {
    var header := U32Bytes(fileLen) + U32Bytes(always0) + U32Bytes(|entries|);
    var recs := RecordsBytes(entries);
    var data := TableBytes(fileLen, always0, entries) + post;
    assert data == header + (recs + post) && data == header + recs + post;
    HeaderOf(fileLen, always0, |entries|, recs + post);
    RecordsFromBytes(header, entries, post, []);
    assert [] + entries == entries;
  }

  /** The trailer words and the payload, read after a table that ends at |pre|. */
  lemma TrailerOf(pre: seq<byte>, packedBits: u32, unpacked: u32, payload: seq<byte>, post: seq<byte>)
    requires |payload| < U32_MODULUS
    ensures ReadTrailerAt(pre + TrailerBytes(packedBits, unpacked, payload) + post, |pre|)
            == Ok(((payload, packedBits), |pre| + 12 + |payload|))
  {
    TrailerWords(pre, packedBits, unpacked, payload, post);
    TrailerPayload(pre, packedBits, unpacked, payload, post);
  }

  lemma TrailerWords(pre: seq<byte>, packedBits: u32, unpacked: u32, payload: seq<byte>, post: seq<byte>)
    requires |payload| < U32_MODULUS
    ensures var data, t := pre + TrailerBytes(packedBits, unpacked, payload) + post, |pre|;
            && ReadU32At(data, t) == Ok((packedBits, t + 4))
            && ReadU32At(data, t + 4) == Ok((|payload|, t + 8))
            && ReadU32At(data, t + 8) == Ok((unpacked, t + 12))
  {
    var w0, w1, w2 := U32Bytes(packedBits), U32Bytes(|payload|), U32Bytes(unpacked);
    var data := pre + TrailerBytes(packedBits, unpacked, payload) + post;
    var t := |pre|;
    var rest := data[t..];
    assert rest == w0 + w1 + w2 + payload + post;
    SuffixWord(pre, rest, 0, packedBits);
    SuffixWord(pre, rest, 4, |payload|);
    SuffixWord(pre, rest, 8, unpacked);
  }

  /** A word at offset i of the bytes after pre. */
  lemma SuffixWord(pre: seq<byte>, rest: seq<byte>, i: nat, v: u32)
    requires i + 4 <= |rest| && rest[i..i + 4] == U32Bytes(v)
    ensures ReadU32At(pre + rest, |pre| + i) == Ok((v, |pre| + i + 4))
  {
    assert (pre + rest)[|pre| + i..|pre| + i + 4] == rest[i..i + 4];
    U32RoundTrip(v);
  }

  lemma TrailerPayload(pre: seq<byte>, packedBits: u32, unpacked: u32, payload: seq<byte>, post: seq<byte>)
    requires |payload| < U32_MODULUS
    ensures var data, t := pre + TrailerBytes(packedBits, unpacked, payload) + post, |pre|;
            TakeAt(data, t + 12, |payload|) == Ok((payload, t + 12 + |payload|))
  {
    var w0, w1, w2 := U32Bytes(packedBits), U32Bytes(|payload|), U32Bytes(unpacked);
    var data := pre + TrailerBytes(packedBits, unpacked, payload) + post;
    assert data == (pre + w0 + w1 + w2) + payload + post;
    assert data[|pre| + 12..|pre| + 12 + |payload|] == payload;
  }

  /** The reads `UnpackFromReader` makes before decoding, put together. */
  lemma ReadContainerSteps(data: seq<byte>, entries: seq<FreqEntry>, t: nat, packedBits: u32, payload: seq<byte>)
    requires ParseTable(data, 0) == Ok((entries, t)) && BuildTree(entries).Node?
    requires ReadTrailerAt(data, t).Ok? && ReadTrailerAt(data, t).value.0 == (payload, packedBits)
    ensures ReadContainerAt(data, 0) == Ok((BuildTree(entries), payload, packedBits))
  {
  }

  /** Reading a container, whatever follows it, gives the tree of its records, its payload and its bit count. */
  lemma ReadContainerOf(fileLen: u32, always0: u32, entries: seq<FreqEntry>, packedBits: u32, unpacked: u32, payload: seq<byte>, post: seq<byte>)
    requires 0 < |entries| < U32_MODULUS && |payload| < U32_MODULUS
    ensures ReadContainerAt(ContainerBytes(fileLen, always0, entries, packedBits, unpacked, payload) + post, 0)
            == Ok((BuildTree(entries), payload, packedBits))
  {
    var table, trailer := TableBytes(fileLen, always0, entries), TrailerBytes(packedBits, unpacked, payload);
    var data := ContainerBytes(fileLen, always0, entries, packedBits, unpacked, payload) + post;
    assert ParseTable(data, 0) == Ok((entries, |table|)) by {
      assert data == table + (trailer + post);
      ParseTableRoundTrip(fileLen, always0, entries, trailer + post);
    }
    assert BuildTree(entries).Node? by {
      BuildTreeShape(entries);
    }
    assert data == table + trailer + post;
    TrailerOf(table, packedBits, unpacked, payload, post);
    ReadContainerSteps(data, entries, |table|, packedBits, payload);
  }

  /**
   * Unpacking a container, whatever follows it, decodes its payload with the
   * tree built from its records and its declared bit count; the file length,
   * zero word and unpacked count are never looked at.
   */
  lemma UnpackContainer(fileLen: u32, always0: u32, entries: seq<FreqEntry>, packedBits: u32, unpacked: u32, payload: seq<byte>, post: seq<byte>)
    requires 0 < |entries| < U32_MODULUS && |payload| < U32_MODULUS
    ensures Unpack(ContainerBytes(fileLen, always0, entries, packedBits, unpacked, payload) + post)
            == DecodeSpec(BuildTree(entries), payload, packedBits)
  {
    ReadContainerOf(fileLen, always0, entries, packedBits, unpacked, payload, post);
  }

  /**
   * The end-to-end round trip: a container whose records give a tree with at
   * least two leaves, whose payload is an encoding packed MSB-first and whose
   * bit count is that encoding's length unpacks to the encoded message.
   */
  lemma UnpackRoundTrip(fileLen: u32, always0: u32, entries: seq<FreqEntry>, unpacked: u32, msg: seq<byte>, code: seq<bool>, post: seq<byte>)
    requires 2 <= |entries| < U32_MODULUS && |code| < U32_MODULUS
    requires Encode(BuildTree(entries), msg) == Some(code)
    ensures Unpack(ContainerBytes(fileLen, always0, entries, |code|, unpacked, PackBits(code)) + post) == Ok(msg)
  {
    BuildTreeInternal(entries);
    UnpackContainer(fileLen, always0, entries, |code|, unpacked, PackBits(code), post);
    DecodePackedEncoding(BuildTree(entries), msg, code);
  }

  // ---------------------------------------------------------------------
  // A truncated container is a short read

  /** What a read over only the first k bytes yields: the same outcome if it ended within them, else a short read. */
  function Cut<T>(r: Result<(T, nat), Failure>, k: nat): Result<(T, nat), Failure> {
    match r
    case Ok(v) => if v.1 <= k then r else Err(ShortRead)
    case Err(e) => Err(e)
  }

  lemma ReadU32Prefix(data: seq<byte>, k: nat, pos: nat)
    requires k <= |data|
    ensures ReadU32At(data[..k], pos) == Cut(ReadU32At(data, pos), k)
  {
    if pos + 4 <= k {
      assert data[..k][pos..pos + 4] == data[pos..pos + 4];
    }
  }

  lemma TakePrefix(data: seq<byte>, k: nat, pos: nat, n: nat)
    requires k <= |data|
    ensures TakeAt(data[..k], pos, n) == Cut(TakeAt(data, pos, n), k)
  {
    if pos + n <= k {
      assert data[..k][pos..pos + n] == data[pos..pos + n];
    }
  }

  lemma ReadRecordPrefix(data: seq<byte>, k: nat, pos: nat)
    requires k <= |data|
    ensures ReadRecordAt(data[..k], pos) == Cut(ReadRecordAt(data, pos), k)
  {
    if pos + 8 <= k {
      assert data[..k][pos..pos + 4] == data[pos..pos + 4];
    }
  }

  /** The records end exactly 8 bytes per record further on; the only failure is a short read. */
  lemma {:induction false} RecordsFromShape(data: seq<byte>, pos: nat, n: nat, acc: seq<FreqEntry>)
    ensures RecordsFrom(data, pos, n, acc).Ok? ==> RecordsFrom(data, pos, n, acc).value.1 == pos + 8 * n
    ensures RecordsFrom(data, pos, n, acc).Err? ==> RecordsFrom(data, pos, n, acc).error == ShortRead
    decreases n
  {
    if n > 0 {
      var rec := ReadRecordAt(data, pos);
      if rec.Ok? {
        RecordsFromShape(data, rec.value.1, n - 1, acc + [rec.value.0]);
      }
    }
  }

  lemma {:induction false} RecordsFromPrefix(data: seq<byte>, k: nat, pos: nat, n: nat, acc: seq<FreqEntry>)
    requires k <= |data| && pos <= k
    ensures RecordsFrom(data[..k], pos, n, acc) == Cut(RecordsFrom(data, pos, n, acc), k)
    decreases n
  {
    if n > 0 {
      ReadRecordPrefix(data, k, pos);
      var rec := ReadRecordAt(data, pos);
      if rec.Ok? {
        var (e, p) := rec.value;
        RecordsFromShape(data, p, n - 1, acc + [e]);
        if p <= k {
          RecordsFromPrefix(data, k, p, n - 1, acc + [e]);
        }
      }
    }
  }

  lemma ParseTablePrefix(data: seq<byte>, k: nat)
    requires k <= |data|
    ensures ParseTable(data[..k], 0) == Cut(ParseTable(data, 0), k)
  {
    ReadU32Prefix(data, k, 0);
    ReadU32Prefix(data, k, 4);
    ReadU32Prefix(data, k, 8);
    if 12 <= |data| {
      var chars := LeU32(data[8..12]);
      RecordsFromShape(data, 12, chars, []);
      if 12 <= k {
        RecordsFromPrefix(data, k, 12, chars, []);
      }
    }
  }

  /** Cutting a container anywhere before its last byte makes unpacking fail with a short read. */
  lemma TruncatedContainerFails(fileLen: u32, always0: u32, entries: seq<FreqEntry>, packedBits: u32, unpacked: u32, payload: seq<byte>, k: nat)
    requires 0 < |entries| < U32_MODULUS && |payload| < U32_MODULUS
    requires k < |ContainerBytes(fileLen, always0, entries, packedBits, unpacked, payload)|
    ensures Unpack(ContainerBytes(fileLen, always0, entries, packedBits, unpacked, payload)[..k]) == Err(ShortRead)
  {
    var b := ContainerBytes(fileLen, always0, entries, packedBits, unpacked, payload);
    var d := b[..k];
    var table, trailer := TableBytes(fileLen, always0, entries), TrailerBytes(packedBits, unpacked, payload);
    var t := |table|;
    assert ParseTable(b, 0) == Ok((entries, t)) by {
      ParseTableRoundTrip(fileLen, always0, entries, trailer);
    }
    assert ParseTable(d, 0) == Cut(ParseTable(b, 0), k) by {
      ParseTablePrefix(b, k);
    }
    if k < t {
      assert ParseTable(d, 0) == Err(ShortRead);
    } else {
      assert ParseTable(d, 0) == Ok((entries, t));
      assert BuildTree(entries).Node? by {
        BuildTreeShape(entries);
      }
      assert ReadTrailerAt(d, t) == Err(ShortRead) by {
        assert b == table + trailer + [];
        TrailerOf(table, packedBits, unpacked, payload, []);
        ReadTrailerPrefix(b, k, t);
      }
    }
  }

  lemma ReadTrailerPrefix(data: seq<byte>, k: nat, pos: nat)
    requires k <= |data| && pos <= k
    ensures ReadTrailerAt(data[..k], pos) == Cut(ReadTrailerAt(data, pos), k)
  {
    ReadU32Prefix(data, k, pos);
    ReadU32Prefix(data, k, pos + 4);
    ReadU32Prefix(data, k, pos + 8);
    if pos + 12 <= |data| {
      TakePrefix(data, k, pos + 12, LeU32(data[pos + 4..pos + 8]));
    }
  }

  // ---------------------------------------------------------------------
  // The unchecked bit count

  /**
   * As written: nothing compares the declared bit count with the payload, so
   * a container declaring more bits than its payload holds makes `decode`
   * index past the payload, a runtime panic.
   */
  lemma OverlongBitCountPanics(fileLen: u32, always0: u32, entries: seq<FreqEntry>, packedBits: u32, unpacked: u32, post: seq<byte>)
    requires 2 <= |entries| < U32_MODULUS && 0 < packedBits
    ensures Unpack(ContainerBytes(fileLen, always0, entries, packedBits, unpacked, []) + post) == Err(IndexOutOfRange)
  {
    UnpackContainer(fileLen, always0, entries, packedBits, unpacked, [], post);
    BuildTreeInternal(entries);
    var t := BuildTree(entries);
    assert WalkSymbol(t, [], packedBits, 0) == ReadPanic;
  }

  /**
   * The smallest such container, 40 bytes: two records ('A' and 'B', count 1
   * each), a bit count of 1 and no payload byte.
   */
  lemma OverlongBitCountExample()
    ensures |ContainerBytes(0, 0, [FreqEntry(65, 1), FreqEntry(66, 1)], 1, 0, [])| == 40
    ensures Unpack(ContainerBytes(0, 0, [FreqEntry(65, 1), FreqEntry(66, 1)], 1, 0, [])) == Err(IndexOutOfRange)
  {
    var data := ContainerBytes(0, 0, [FreqEntry(65, 1), FreqEntry(66, 1)], 1, 0, []);
    OverlongBitCountPanics(0, 0, [FreqEntry(65, 1), FreqEntry(66, 1)], 1, 0, []);
    assert data + [] == data;
  }

  /** Corrected: `UnpackFromReader` rejecting a bit count larger than eight bits per payload byte before decoding. */
  function UnpackChecked(data: seq<byte>): Result<seq<byte>, Failure> {
    var c :- ReadContainerAt(data, 0);
    if c.2 > 8 * |c.1| then Err(BitCountTooLarge) else DecodeSpec(c.0, c.1, c.2)
  }

  /**
   * The corrected unpacking never panics, and differs from the original
   * only by rejecting an overlong bit count; every successful unpack of the
   * original is kept.
   */
  lemma UnpackCheckedNeverPanics(data: seq<byte>)
    ensures UnpackChecked(data) != Err(IndexOutOfRange)
    ensures UnpackChecked(data) != Unpack(data) ==> UnpackChecked(data) == Err(BitCountTooLarge)
    ensures Unpack(data).Ok? ==> UnpackChecked(data) == Unpack(data)
  {
    var c := ReadContainerAt(data, 0);
    ReadContainerFailures(data, 0);
    if c.Ok? {
      var (tree, packed, bits) := c.value;
      if bits <= 8 * |packed| {
        DecodeInBudget(tree, packed, bits);
      }
      if DecodeSpec(tree, packed, bits).Ok? {
        DecodeOkWithinPayload(tree, packed, bits);
      }
    }
  }
}
