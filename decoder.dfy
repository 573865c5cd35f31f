/**
 * `decode` (pkg/huffmanunpack/huffmanunpack.go:117-146): while the bit budget
 * lasts, walk from the root taking one bit per internal node (0 left, 1
 * right) and emit the symbol of the leaf reached. Failures carry the output
 * decoded so far.
 */
module Decoder {
  import opened Wrappers
  import opened Huffman
  import opened BitStream

  /** How the walk for one symbol ends. */
  datatype Walk = Reached(c: byte, pos: nat) | OutOfBits | NilChild | ReadPanic

  /** The inner loop of `decode`, from node n with the cursor at pos. */
  function WalkSymbol(n: NodeRef, data: seq<byte>, bits: nat, pos: nat): (w: Walk)
    ensures IsLeaf(n) ==> w == Reached(n.c, pos)
    ensures !IsLeaf(n) && w.Reached? ==> pos < w.pos <= bits
    decreases n
  {
    if IsLeaf(n) then Reached(n.c, pos)
    else
      match ReadBitAt(data, bits, pos)
      case (EndOfBits, _) => OutOfBits
      case (OutOfRange, _) => ReadPanic
      case (Bit(b), p) =>
        var next := if b then n.right else n.left;
        if next.Nil? then NilChild else WalkSymbol(next, data, bits, p)
  }

  /** The outer loop of `decode` for an internal root, with `out` emitted so far. */
  function DecodeFrom(t: NodeRef, data: seq<byte>, bits: nat, pos: nat, out: seq<byte>): Result<seq<byte>, Failure>
    requires !IsLeaf(t)
    decreases bits - pos
  {
    if pos >= bits then Ok(out)
    else
      match WalkSymbol(t, data, bits, pos)
      case Reached(c, p) => DecodeFrom(t, data, bits, p, out + [c])
      case OutOfBits => Err(StreamExhausted(out))
      case NilChild => Err(DeadEnd(out))
      case ReadPanic => Err(IndexOutOfRange)
  }

  /**
   * `decode(tree, packed, bitCount)`. A leaf root never reads a bit, so with a
   * positive budget the source loops forever; that outcome is `NeverReturns`.
   */
  function DecodeSpec(t: Tree, data: seq<byte>, bits: nat): Result<seq<byte>, Failure> {
    if t.Nil? then Err(EmptyTree)
    else if IsLeaf(t) then (if 0 < bits then Err(NeverReturns) else Ok([]))
    else DecodeFrom(t, data, bits, 0, [])
  }

  /** `decode`, with its bit reader and its two loops. */
  method Decode(tree: Tree, packed: seq<byte>, bitCount: nat) returns (r: Result<seq<byte>, Failure>)
    ensures r == DecodeSpec(tree, packed, bitCount)
  {
    if tree.Nil? {
      return Err(EmptyTree);
    }
    var br := new BitReader(packed, bitCount);
    var out: seq<byte> := [];
    if IsLeaf(tree) && br.pos < br.bits {
      // The source's outer loop spins here without reading a bit.
      return Err(NeverReturns);
    }
    while br.pos < br.bits
      invariant IsLeaf(tree) ==> out == [] && br.pos >= br.bits
      invariant !IsLeaf(tree) ==> DecodeFrom(tree, packed, bitCount, br.pos, out) == DecodeSpec(tree, packed, bitCount)
      decreases br.bits - br.pos
    {
      ghost var start := br.pos;
      var n: NodeRef := tree;
      while !IsLeaf(n)
        invariant br.data == packed && br.bits == bitCount && start <= br.pos
        invariant br.pos == start ==> n == tree
        invariant WalkSymbol(n, packed, bitCount, br.pos) == WalkSymbol(tree, packed, bitCount, start)
        decreases n
      {
        var bit := br.ReadBit();
        match bit
        case EndOfBits =>
          return Err(StreamExhausted(out));
        case OutOfRange =>
          return Err(IndexOutOfRange);
        case Bit(b) =>
          var next := if b then n.right else n.left;
          if next.Nil? {
            return Err(DeadEnd(out));
          }
          n := next;
      }
      out := out + [n.c];
    }
    return Ok(out);
  }

  // ---------------------------------------------------------------------
  // Failure modes

  /** In a full tree every walk that reads a bit lands on a node. */
  lemma {:induction false} FullWalkNoNilChild(n: NodeRef, data: seq<byte>, bits: nat, pos: nat)
    requires Full(n)
    ensures WalkSymbol(n, data, bits, pos) != NilChild
    decreases n
  {
    if !IsLeaf(n) {
      var (r, p) := ReadBitAt(data, bits, pos);
      if r.Bit? {
        FullWalkNoNilChild(if r.value then n.right else n.left, data, bits, p);
      }
    }
  }

  /** With a full tree, such as every tree the builder returns, decoding never hits a dead end. */
  lemma {:induction false} FullTreeNoDeadEnd(t: Tree, data: seq<byte>, bits: nat)
    requires Full(t)
    ensures !(DecodeSpec(t, data, bits).Err? && DecodeSpec(t, data, bits).error.DeadEnd?)
  {
    if !IsLeaf(t) {
      FullFromNoDeadEnd(t, data, bits, 0, []);
    }
  }

  lemma {:induction false} FullFromNoDeadEnd(t: NodeRef, data: seq<byte>, bits: nat, pos: nat, out: seq<byte>)
    requires Full(t) && !IsLeaf(t)
    ensures !(DecodeFrom(t, data, bits, pos, out).Err? && DecodeFrom(t, data, bits, pos, out).error.DeadEnd?)
    decreases bits - pos
  {
    if pos < bits {
      FullWalkNoNilChild(t, data, bits, pos);
      var w := WalkSymbol(t, data, bits, pos);
      if w.Reached? {
        FullFromNoDeadEnd(t, data, bits, w.pos, out + [w.c]);
      }
    }
  }

  /** A walk that stays within 8 bits per payload byte never indexes past the payload. */
  lemma {:induction false} WalkInBudget(n: NodeRef, data: seq<byte>, bits: nat, pos: nat)
    requires bits <= 8 * |data|
    ensures WalkSymbol(n, data, bits, pos) != ReadPanic
    decreases n
  {
    if !IsLeaf(n) {
      var (r, p) := ReadBitAt(data, bits, pos);
      ReadBitCases(data, bits, pos);
      if r.Bit? {
        var next := if r.value then n.right else n.left;
        if next.Node? {
          WalkInBudget(next, data, bits, p);
        }
      }
    }
  }

  /** The panic is reachable only when the bit count exceeds 8 bits per payload byte. */
  lemma {:induction false} DecodeInBudget(t: Tree, data: seq<byte>, bits: nat)
    requires bits <= 8 * |data|
    ensures DecodeSpec(t, data, bits) != Err(IndexOutOfRange)
  {
    if t.Node? && !IsLeaf(t) {
      DecodeFromInBudget(t, data, bits, 0, []);
    }
  }

  lemma {:induction false} DecodeFromInBudget(t: NodeRef, data: seq<byte>, bits: nat, pos: nat, out: seq<byte>)
    requires !IsLeaf(t) && bits <= 8 * |data|
    ensures DecodeFrom(t, data, bits, pos, out) != Err(IndexOutOfRange)
    decreases bits - pos
  {
    if pos < bits {
      WalkInBudget(t, data, bits, pos);
      var w := WalkSymbol(t, data, bits, pos);
      if w.Reached? {
        DecodeFromInBudget(t, data, bits, w.pos, out + [w.c]);
      }
    }
  }

  /** A walk through an internal node that reaches a leaf read only bits inside the payload. */
  lemma {:induction false} WalkReadsInPayload(n: NodeRef, data: seq<byte>, bits: nat, pos: nat)
    requires !IsLeaf(n) && WalkSymbol(n, data, bits, pos).Reached?
    ensures WalkSymbol(n, data, bits, pos).pos <= 8 * |data|
    decreases n
  {
    var next := if BitAt(data, pos) then n.right else n.left;
    if !IsLeaf(next) {
      WalkReadsInPayload(next, data, bits, pos + 1);
    }
  }

  /** A successful decode never declared more bits than the payload holds. */
  lemma DecodeOkWithinPayload(t: Tree, data: seq<byte>, bits: nat)
    requires DecodeSpec(t, data, bits).Ok?
    ensures bits <= 8 * |data|
  {
    if !IsLeaf(t) {
      DecodeFromOkWithinPayload(t, data, bits, 0, []);
    }
  }

  lemma {:induction false} DecodeFromOkWithinPayload(t: NodeRef, data: seq<byte>, bits: nat, pos: nat, out: seq<byte>)
    requires !IsLeaf(t) && pos <= bits && pos <= 8 * |data| && DecodeFrom(t, data, bits, pos, out).Ok?
    ensures bits <= 8 * |data|
    decreases bits - pos
  {
    if pos < bits {
      var w := WalkSymbol(t, data, bits, pos);
      WalkReadsInPayload(t, data, bits, pos);
      DecodeFromOkWithinPayload(t, data, bits, w.pos, out + [w.c]);
    }
  }

  /**
   * With an internal root every symbol consumes at least one bit, which is
   * what `DecodeFrom`'s measure `bits - pos` records, so the outer loop
   * cannot spin. What is emitted only grows, and running out of bits is
   * reported only when some symbol's walk started before the end of the
   * budget and reached the end of it before a leaf.
   */
  lemma {:induction false} InternalRootReturns(t: NodeRef, data: seq<byte>, bits: nat, pos: nat, out: seq<byte>)
    requires !IsLeaf(t)
    ensures DecodeFrom(t, data, bits, pos, out) != Err(NeverReturns)
    ensures DecodeFrom(t, data, bits, pos, out).Ok? ==> out <= DecodeFrom(t, data, bits, pos, out).value
    ensures DecodeFrom(t, data, bits, pos, out).Err? && DecodeFrom(t, data, bits, pos, out).error.StreamExhausted? ==>
              out <= DecodeFrom(t, data, bits, pos, out).error.partial
    ensures DecodeFrom(t, data, bits, pos, out).Err? && DecodeFrom(t, data, bits, pos, out).error.StreamExhausted? ==>
              exists p :: pos <= p < bits && WalkSymbol(t, data, bits, p) == OutOfBits
    decreases bits - pos
  {
    if pos < bits {
      var w := WalkSymbol(t, data, bits, pos);
      if w.Reached? {
        InternalRootReturns(t, data, bits, w.pos, out + [w.c]);
      }
    }
  }

  /** A leaf root reads nothing: an empty result on an empty budget, a spinning loop otherwise. */
  lemma LeafRootStalls(t: NodeRef, data: seq<byte>, bits: nat)
    requires IsLeaf(t)
    ensures bits == 0 ==> DecodeSpec(t, data, bits) == Ok([])
    ensures bits > 0 ==> DecodeSpec(t, data, bits) == Err(NeverReturns)
  {
  }

  // ---------------------------------------------------------------------
  // Decoding inverts encoding

  /** The path (false = left, true = right) to the leftmost leaf carrying symbol c. */
  function CodeOf(t: Tree, c: byte): Option<seq<bool>> {
    match t
    case Nil => None
    case Node(s, _, l, r) =>
      if l.Nil? && r.Nil? then (if s == c then Some([]) else None)
      else
        match CodeOf(l, c)
        case Some(p) => Some([false] + p)
        case None =>
          match CodeOf(r, c)
          case Some(p) => Some([true] + p)
          case None => None
  }

  /** The bit string a Huffman encoder with tree t emits for msg. */
  function Encode(t: Tree, msg: seq<byte>): Option<seq<bool>> {
    if msg == [] then Some([])
    else
      match CodeOf(t, msg[0])
      case None => None
      case Some(p) =>
        match Encode(t, msg[1..])
        case None => None
        case Some(q) => Some(p + q)
  }

  /** The first |code| bits of the payload are exactly `code`. */
  ghost predicate Carries(data: seq<byte>, from: nat, code: seq<bool>) {
    && from + |code| <= 8 * |data|
    && forall i :: 0 <= i < |code| ==> BitAt(data, from + i) == code[i]
  }

  /** An encoding of a non-empty message is the first symbol's code followed by the encoding of the rest. */
  lemma EncodeCons(t: Tree, msg: seq<byte>, code: seq<bool>)
    requires msg != [] && Encode(t, msg) == Some(code)
    ensures CodeOf(t, msg[0]).Some? && Encode(t, msg[1..]).Some?
    ensures code == CodeOf(t, msg[0]).value + Encode(t, msg[1..]).value
  {
  }

  /** Walking along a leaf's code reaches that leaf and consumes exactly the code. */
  lemma {:induction false} WalkFollowsCode(n: NodeRef, c: byte, code: seq<bool>, data: seq<byte>, bits: nat, pos: nat)
    requires CodeOf(n, c) == Some(code)
    requires pos + |code| <= bits && Carries(data, pos, code)
    ensures WalkSymbol(n, data, bits, pos) == Reached(c, pos + |code|)
    ensures !IsLeaf(n) ==> |code| > 0
    decreases n
  {
    if !IsLeaf(n) {
      assert BitAt(data, pos) == code[0];
      var next := if code[0] then n.right else n.left;
      var rest := code[1..];
      assert CodeOf(next, c) == Some(rest);
      assert Carries(data, pos + 1, rest) by {
        forall i | 0 <= i < |rest| ensures BitAt(data, pos + 1 + i) == rest[i] {
          assert BitAt(data, pos + (i + 1)) == code[i + 1];
        }
      }
      WalkFollowsCode(next, c, rest, data, bits, pos + 1);
    }
  }

  /** A payload carrying p + q carries p, and q right after it. */
  lemma CarriesSplit(data: seq<byte>, pos: nat, p: seq<bool>, q: seq<bool>)
    requires Carries(data, pos, p + q)
    ensures Carries(data, pos, p) && Carries(data, pos + |p|, q)
  {
    forall i | 0 <= i < |p| ensures BitAt(data, pos + i) == p[i] {
      assert (p + q)[i] == p[i];
    }
    forall i | 0 <= i < |q| ensures BitAt(data, pos + |p| + i) == q[i] {
      assert BitAt(data, pos + (|p| + i)) == (p + q)[|p| + i];
    }
  }

  /** One outer iteration over a carried code: the decoder emits its symbol and moves past it. */
  lemma DecodeStep(t: NodeRef, c: byte, p: seq<bool>, data: seq<byte>, bits: nat, pos: nat, out: seq<byte>)
    requires !IsLeaf(t) && CodeOf(t, c) == Some(p) && pos + |p| <= bits && Carries(data, pos, p)
    ensures DecodeFrom(t, data, bits, pos, out) == DecodeFrom(t, data, bits, pos + |p|, out + [c])
  {
    WalkFollowsCode(t, c, p, data, bits, pos);
  }

  lemma {:induction false} DecodeFromEncoded(t: NodeRef, msg: seq<byte>, code: seq<bool>, data: seq<byte>, bits: nat, pos: nat, out: seq<byte>)
    requires !IsLeaf(t) && Encode(t, msg) == Some(code) && Carries(data, pos, code) && bits == pos + |code|
    ensures DecodeFrom(t, data, bits, pos, out) == Ok(out + msg)
    decreases msg
  {
    if msg == [] {
      assert out + msg == out;
    } else {
      EncodeCons(t, msg, code);
      var c, p, q := msg[0], CodeOf(t, msg[0]).value, Encode(t, msg[1..]).value;
      CarriesSplit(data, pos, p, q);
      DecodeStep(t, c, p, data, bits, pos, out);
      DecodeFromEncoded(t, msg[1..], q, data, bits, pos + |p|, out + [c]);
      assert out + [c] + msg[1..] == out + msg;
    }
  }

  /**
   * Decoding a payload that carries the encoding of msg, with the bit count
   * set to the encoding's length, yields msg (for a tree with at least two
   * leaves; a leaf root cannot consume bits).
   */
  lemma DecodeInvertsEncode(t: NodeRef, msg: seq<byte>, code: seq<bool>, data: seq<byte>)
    requires !IsLeaf(t) && Encode(t, msg) == Some(code) && Carries(data, 0, code)
    ensures DecodeSpec(t, data, |code|) == Ok(msg)
  {
    DecodeFromEncoded(t, msg, code, data, |code|, 0, []);
    assert [] + msg == msg;
  }

  /** The same, for a payload produced by packing the encoding MSB-first. */
  lemma DecodePackedEncoding(t: NodeRef, msg: seq<byte>, code: seq<bool>)
    requires !IsLeaf(t) && Encode(t, msg) == Some(code)
    ensures DecodeSpec(t, PackBits(code), |code|) == Ok(msg)
  {
    forall i | 0 <= i < |code| ensures BitAt(PackBits(code), i) == code[i] {
      PackBitsRoundTrip(code, i);
    }
    assert Carries(PackBits(code), 0, code) by {
      forall i | 0 <= i < |code| ensures BitAt(PackBits(code), 0 + i) == code[i] {
        assert 0 + i == i;
      }
    }
    DecodeInvertsEncode(t, msg, code, PackBits(code));
  }

  // ---------------------------------------------------------------------
  // A successful decode is an encoding of its output

  /** The symbols on the leaves of a tree. */
  function Symbols(t: Tree): set<byte> {
    match t
    case Nil => {}
    case Node(c, _, l, r) => if l.Nil? && r.Nil? then {c} else Symbols(l) + Symbols(r)
  }

  /** No symbol sits on two leaves, as when every record of the table has its own symbol. */
  predicate Distinct(t: Tree) {
    match t
    case Nil => true
    case Node(_, _, l, r) => (l.Nil? && r.Nil?) || (Distinct(l) && Distinct(r) && Symbols(l) !! Symbols(r))
  }

  /** A symbol has a code exactly when some leaf carries it. */
  lemma {:induction false} CodeOfSymbols(t: Tree, c: byte)
    ensures CodeOf(t, c).Some? <==> c in Symbols(t)
  {
    match t
    case Nil =>
    case Node(_, _, l, r) =>
      if !(l.Nil? && r.Nil?) {
        CodeOfSymbols(l, c);
        CodeOfSymbols(r, c);
      }
  }

  /** With distinct symbols, the bits a walk consumes are the code of the symbol it reaches. */
  lemma {:induction false} WalkGivesCode(n: NodeRef, data: seq<byte>, bits: nat, pos: nat)
    requires Distinct(n) && pos <= 8 * |data| && WalkSymbol(n, data, bits, pos).Reached?
    ensures var w := WalkSymbol(n, data, bits, pos);
            && CodeOf(n, w.c).Some?
            && |CodeOf(n, w.c).value| == w.pos - pos
            && Carries(data, pos, CodeOf(n, w.c).value)
    decreases n
  {
    if !IsLeaf(n) {
      var b := BitAt(data, pos);
      var next := if b then n.right else n.left;
      WalkGivesCode(next, data, bits, pos + 1);
      var w := WalkSymbol(n, data, bits, pos);
      if b {
        CodeOfSymbols(n.right, w.c);
        CodeOfSymbols(n.left, w.c);
      }
      var rest := CodeOf(next, w.c).value;
      assert CodeOf(n, w.c).value == [b] + rest;
      CarriesCons(data, pos, b, rest);
    }
  }

  lemma CarriesCons(data: seq<byte>, pos: nat, b: bool, rest: seq<bool>)
    requires pos < 8 * |data| && BitAt(data, pos) == b && Carries(data, pos + 1, rest)
    ensures Carries(data, pos, [b] + rest)
  {
    forall i | 0 <= i < |rest| + 1 ensures BitAt(data, pos + i) == ([b] + rest)[i] {
      if i > 0 {
        assert BitAt(data, (pos + 1) + (i - 1)) == rest[i - 1];
      }
    }
  }

  /** A payload carrying p, and q right after it, carries p + q. */
  lemma CarriesJoin(data: seq<byte>, pos: nat, p: seq<bool>, q: seq<bool>)
    requires Carries(data, pos, p) && Carries(data, pos + |p|, q)
    ensures Carries(data, pos, p + q)
  {
    forall i | 0 <= i < |p| + |q| ensures BitAt(data, pos + i) == (p + q)[i] {
      if i >= |p| {
        assert BitAt(data, (pos + |p|) + (i - |p|)) == q[i - |p|];
      }
    }
  }

  lemma {:induction false} DecodeFromGivesEncoding(t: NodeRef, data: seq<byte>, bits: nat, pos: nat, out: seq<byte>)
    requires !IsLeaf(t) && Distinct(t) && pos <= 8 * |data| && pos <= bits
    requires DecodeFrom(t, data, bits, pos, out).Ok?
    ensures var res := DecodeFrom(t, data, bits, pos, out).value;
            && out <= res
            && Encode(t, res[|out|..]).Some?
            && |Encode(t, res[|out|..]).value| == bits - pos
            && Carries(data, pos, Encode(t, res[|out|..]).value)
    decreases bits - pos
  {
    var res := DecodeFrom(t, data, bits, pos, out).value;
    if pos == bits {
      assert res[|out|..] == [];
    } else {
      var w := WalkSymbol(t, data, bits, pos);
      var c, mid := w.c, w.pos;
      WalkGivesCode(t, data, bits, pos);
      var p := CodeOf(t, c).value;
      assert res == DecodeFrom(t, data, bits, mid, out + [c]).value;
      DecodeFromGivesEncoding(t, data, bits, mid, out + [c]);
      var rest := res[|out| + 1..];
      var q := Encode(t, rest).value;
      assert Encode(t, [c] + rest) == Some(p + q) by {
        assert ([c] + rest)[0] == c && ([c] + rest)[1..] == rest;
      }
      assert res[|out|..] == [c] + rest;
      CarriesJoin(data, pos, p, q);
    }
  }

  /**
   * For a tree with at least two leaves and distinct symbols, a successful
   * decode consumed exactly the declared bit count, all within the payload,
   * and those bits are the encoding of its output.
   */
  lemma DecodeYieldsEncoding(t: NodeRef, data: seq<byte>, bits: nat)
    requires !IsLeaf(t) && Distinct(t) && DecodeSpec(t, data, bits).Ok?
    ensures var msg := DecodeSpec(t, data, bits).value;
            && Encode(t, msg).Some?
            && |Encode(t, msg).value| == bits
            && Carries(data, 0, Encode(t, msg).value)
  {
    DecodeFromGivesEncoding(t, data, bits, 0, []);
    var res := DecodeSpec(t, data, bits).value;
    assert res[0..] == res;
  }

  // ---------------------------------------------------------------------
  // Only the budgeted bits matter

  /** Two payloads, both long enough, that agree on bits [0, bits). */
  ghost predicate SameBits(d1: seq<byte>, d2: seq<byte>, bits: nat) {
    && bits <= 8 * |d1| && bits <= 8 * |d2|
    && forall i :: 0 <= i < bits ==> BitAt(d1, i) == BitAt(d2, i)
  }

  lemma {:induction false} WalkSameBits(n: NodeRef, d1: seq<byte>, d2: seq<byte>, bits: nat, pos: nat)
    requires SameBits(d1, d2, bits)
    ensures WalkSymbol(n, d1, bits, pos) == WalkSymbol(n, d2, bits, pos)
    decreases n
  {
    if !IsLeaf(n) && pos < bits {
      assert BitAt(d1, pos) == BitAt(d2, pos);
      var next := if BitAt(d1, pos) then n.right else n.left;
      if next.Node? {
        WalkSameBits(next, d1, d2, bits, pos + 1);
      }
    }
  }

  lemma {:induction false} DecodeFromSameBits(t: NodeRef, d1: seq<byte>, d2: seq<byte>, bits: nat, pos: nat, out: seq<byte>)
    requires !IsLeaf(t) && SameBits(d1, d2, bits)
    ensures DecodeFrom(t, d1, bits, pos, out) == DecodeFrom(t, d2, bits, pos, out)
    decreases bits - pos
  {
    if pos < bits {
      WalkSameBits(t, d1, d2, bits, pos);
      var w := WalkSymbol(t, d1, bits, pos);
      if w.Reached? {
        DecodeFromSameBits(t, d1, d2, bits, w.pos, out + [w.c]);
      }
    }
  }

  /** Decoding never looks past the declared bit count: the padding bits of the last byte are ignored. */
  lemma DecodeIgnoresPadding(t: Tree, d1: seq<byte>, d2: seq<byte>, bits: nat)
    requires SameBits(d1, d2, bits)
    ensures DecodeSpec(t, d1, bits) == DecodeSpec(t, d2, bits)
  {
    if t.Node? && !IsLeaf(t) {
      DecodeFromSameBits(t, d1, d2, bits, 0, []);
    }
  }
}
