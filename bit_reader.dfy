/**
 * The MSB-first bit reader of the decoder
 * (pkg/huffmanunpack/huffmanunpack.go:97-114). It hands out the payload's
 * bits starting with the most significant bit of byte 0, stops at the
 * declared bit count, and indexes the payload without a bounds check.
 */
module BitStream {
  import opened Huffman

  function Pow2(k: nat): (p: nat)
    ensures p >= 1
  {
    if k == 0 then 1 else 2 * Pow2(k - 1)
  }

  /** Bit k of a byte, counting from the most significant (k == 0) to the least (k == 7). */
  function ByteBit(b: byte, k: nat): bool
    requires k < 8
  {
    (b / Pow2(7 - k)) % 2 == 1
  }

  /** Bit i of the payload: bit i % 8 of byte i / 8. */
  function BitAt(data: seq<byte>, i: nat): bool
    requires i < 8 * |data|
  {
    ByteBit(data[i / 8], i % 8)
  }

  /** What one `readBit` call yields; `OutOfRange` is Go's index-out-of-range panic. */
  datatype BitRead = Bit(value: bool) | EndOfBits | OutOfRange

  /** `readBit` from position pos: what it yields and where the cursor ends up. */
  function ReadBitAt(data: seq<byte>, bits: nat, pos: nat): (BitRead, nat) {
    if pos >= bits then (EndOfBits, pos)
    else if pos >= 8 * |data| then (OutOfRange, pos)
    else (Bit(BitAt(data, pos)), pos + 1)
  }

  /**
   * A read either yields the bit at the cursor and moves it by one, or yields
   * no bit and leaves it; the end of the budget comes first, and a budget of
   * at most 8 bits per payload byte never reaches the panic.
   */
  lemma ReadBitCases(data: seq<byte>, bits: nat, pos: nat)
    ensures var (r, p) := ReadBitAt(data, bits, pos);
            && (r.Bit? <==> pos < bits && pos < 8 * |data|)
            && (r.Bit? ==> p == pos + 1 && r.value == BitAt(data, pos))
            && (!r.Bit? ==> p == pos)
            && (r == EndOfBits <==> bits <= pos)
            && (bits <= 8 * |data| ==> r != OutOfRange)
  {
  }

  /** `bitReader`: a payload, a bit budget, and a cursor that only `readBit` moves. */
  class BitReader {
    const data: seq<byte>
    const bits: nat
    var pos: nat

    constructor (data: seq<byte>, bits: nat)
      ensures this.data == data && this.bits == bits && pos == 0
    {
      this.data := data;
      this.bits := bits;
      pos := 0;
    }

    method ReadBit() returns (r: BitRead)
      modifies this
      ensures (r, pos) == ReadBitAt(data, bits, old(pos))
    {
      if pos >= bits {
        return EndOfBits;
      }
      var byteIdx := pos / 8;
      var bitOff := pos % 8;
      if byteIdx >= |data| {
        return OutOfRange;
      }
      r := Bit(ByteBit(data[byteIdx], bitOff));
      pos := pos + 1;
    }
  }

  /**
   * Bit i of the payload, read off a decomposition of the byte that holds it:
   * the byte is (2h + bit) * 2^(7-k) + r with r below 2^(7-k).
   */
  lemma BitAtParts(data: seq<byte>, i: nat, j: nat, k: nat, h: nat, bit: bool, r: nat)
    requires k < 8 && i == 8 * j + k && j < |data|
    requires data[j] == (2 * h + (if bit then 1 else 0)) * Pow2(7 - k) + r && r < Pow2(7 - k)
    ensures i < 8 * |data| && BitAt(data, i) == bit
  {
    var b := if bit then 1 else 0;
    DivUnique(i, 8, j, k);
    DivUnique(data[j], Pow2(7 - k), 2 * h + b, r);
    DivUnique(2 * h + b, 2, h, b);
  }

  // ---------------------------------------------------------------------
  // Packing bits into bytes: the inverse of the reader

  /** The value of a bit string read most significant bit first. */
  function BitsValue(bs: seq<bool>): (v: nat)
    ensures v < Pow2(|bs|)
  {
    if bs == [] then 0
    else 2 * BitsValue(bs[..|bs| - 1]) + (if bs[|bs| - 1] then 1 else 0)
  }

  function Zeros(n: nat): (z: seq<bool>)
    ensures |z| == n && forall i :: 0 <= i < n ==> !z[i]
  {
    if n == 0 then [] else Zeros(n - 1) + [false]
  }

  /** One payload byte from up to eight bits, the unused low bits zero. */
  function PackByte(bs: seq<bool>): byte
    requires |bs| <= 8
  {
    assert Pow2(8) == 256;
    BitsValue(bs + Zeros(8 - |bs|))
  }

  /** A bit string packed MSB-first into bytes, the last byte zero-padded. */
  function PackBits(bs: seq<bool>): (data: seq<byte>)
    ensures |data| == (|bs| + 7) / 8
    decreases |bs|
  {
    if bs == [] then []
    else if |bs| <= 8 then [PackByte(bs)]
    else [PackByte(bs[..8])] + PackBits(bs[8..])
  }

  /** (2v + b) / 2m == v / m for a bit b. */
  lemma DivDouble(v: nat, b: nat, m: nat)
    requires b < 2 && m > 0
    ensures (2 * v + b) / (2 * m) == v / m
  {
    var q, r := v / m, v % m;
    assert v == q * m + r;
    assert 2 * v + b == q * (2 * m) + (2 * r + b);
    DivUnique(2 * v + b, 2 * m, q, 2 * r + b);
  }

  lemma DivUnique(x: nat, d: nat, q: nat, r: nat)
    requires d > 0 && r < d && x == q * d + r
    ensures x / d == q
  {
    var q', r' := x / d, x % d;
    assert x == q' * d + r';
    assert (q - q') * d == r' - r;
    if q > q' {
      MulAtLeast(q - q', d);
    } else if q < q' {
      MulAtLeast(q' - q, d);
    }
  }

  lemma MulAtLeast(a: int, d: nat)
    requires a >= 1
    ensures a * d >= d
  {
  }

  /** Bit k (from the least significant end) of a bit string's value is the bit k places from its end. */
  lemma {:induction false} BitsValueBit(bs: seq<bool>, k: nat)
    requires k < |bs|
    ensures (BitsValue(bs) / Pow2(k)) % 2 == (if bs[|bs| - 1 - k] then 1 else 0)
  {
    var init := bs[..|bs| - 1];
    var b := if bs[|bs| - 1] then 1 else 0;
    var v := BitsValue(init);
    assert BitsValue(bs) == 2 * v + b;
    if k > 0 {
      assert Pow2(k) == 2 * Pow2(k - 1);
      DivDouble(v, b, Pow2(k - 1));
      BitsValueBit(init, k - 1);
      assert bs[|bs| - 1 - k] == init[|init| - 1 - (k - 1)];
    } else {
      DivUnique(2 * v + b, 2, v, b);
      assert BitsValue(bs) / Pow2(k) == 2 * v + b;
    }
  }

  /** Reading a packed bit string gives back every one of its bits. */
  lemma {:induction false} PackBitsRoundTrip(bs: seq<bool>, i: nat)
    requires i < |bs|
    ensures i < 8 * |PackBits(bs)| && BitAt(PackBits(bs), i) == bs[i]
    decreases |bs|
  {
    if i < 8 {
      FirstByteBits(bs, i);
    } else {
      PackBitsRoundTrip(bs[8..], i - 8);
      assert PackBits(bs)[i / 8] == PackBits(bs[8..])[(i - 8) / 8];
    }
  }

  /** The first payload byte carries the first eight bits. */
  lemma FirstByteBits(bs: seq<bool>, i: nat)
    requires i < |bs| && i < 8
    ensures BitAt(PackBits(bs), i) == bs[i]
  {
    var chunk := if |bs| <= 8 then bs else bs[..8];
    assert PackBits(bs)[0] == PackByte(chunk);
    assert i / 8 == 0 && i % 8 == i;
    PackByteBit(chunk, i);
  }

  /** Bit i of a packed byte is the i-th bit packed into it. */
  lemma PackByteBit(chunk: seq<bool>, i: nat)
    requires i < |chunk| <= 8
    ensures ByteBit(PackByte(chunk), i) == chunk[i]
  {
    var padded := chunk + Zeros(8 - |chunk|);
    BitsValueBit(padded, 7 - i);
    assert padded[i] == chunk[i];
  }
}
