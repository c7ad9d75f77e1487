/**
 * The stacked stream ciphers: each layer changes every byte by its value, its parameter or its
 * position in the stream.  Writers and readers are stacks of layers that keep their own positions.
 */
module Cipher {
  import opened Bytes
  import opened Common

  datatype Op = ReverseBits | Xor(n: bv8) | XorPos | Add(n: bv8) | AddPos

  // ---------- one byte ----------

  function Reverse8(b: bv8): bv8 {
    ((b & 0x01) << 7) | ((b & 0x02) << 5) | ((b & 0x04) << 3) | ((b & 0x08) << 1)
    | ((b & 0x10) >> 1) | ((b & 0x20) >> 3) | ((b & 0x40) >> 5) | ((b & 0x80) >> 7)
  }

  /** A position truncated to a byte. */
  function PosByte(pos: nat): bv8 {
    (pos % 256) as bv8
  }

  /** One layer on one byte, at the position byte p. */
  function EncodeByte(op: Op, p: bv8, b: bv8): bv8 {
    match op
    case ReverseBits => Reverse8(b)
    case Xor(n) => b ^ n
    case XorPos => b ^ p
    case Add(n) => b + n
    case AddPos => b + p
  }

  function DecodeByte(op: Op, p: bv8, b: bv8): bv8 {
    match op
    case ReverseBits => Reverse8(b)
    case Xor(n) => b ^ n
    case XorPos => b ^ p
    case Add(n) => b - n
    case AddPos => b - p
  }

  lemma Reverse8Twice(b: bv8)
    ensures Reverse8(Reverse8(b)) == b
  {
  }

  lemma ByteRoundTrip(op: Op, p: bv8, b: bv8)
    ensures DecodeByte(op, p, EncodeByte(op, p, b)) == b
  {
    match op {
      case ReverseBits => Reverse8Twice(b);
      case _ =>
    }
  }

  /** A writer applies the first operation first. */
  function EncodeAll(ops: seq<Op>, p: bv8, b: bv8): bv8 {
    if ops == [] then b else EncodeAll(ops[1..], p, EncodeByte(ops[0], p, b))
  }

  /** A reader undoes the last operation first. */
  function DecodeAll(ops: seq<Op>, p: bv8, b: bv8): bv8 {
    if ops == [] then b else DecodeByte(ops[0], p, DecodeAll(ops[1..], p, b))
  }

  lemma {:induction false} StackRoundTrip(ops: seq<Op>, p: bv8, b: bv8)
    ensures DecodeAll(ops, p, EncodeAll(ops, p, b)) == b
    decreases |ops|
  {
    if ops != [] {
      StackRoundTrip(ops[1..], p, EncodeByte(ops[0], p, b));
      ByteRoundTrip(ops[0], p, b);
    }
  }

  // ---------- streams ----------

  function Encoded(ops: seq<Op>, pos: nat, data: seq<bv8>): seq<bv8> {
    seq(|data|, i requires 0 <= i < |data| => EncodeAll(ops, PosByte(pos + i), data[i]))
  }

  function Decoded(ops: seq<Op>, pos: nat, data: seq<bv8>): seq<bv8> {
    seq(|data|, i requires 0 <= i < |data| => DecodeAll(ops, PosByte(pos + i), data[i]))
  }

  /** Cutting a stream anywhere makes no difference: the second part goes on from its position. */
  lemma EncodedSplits(ops: seq<Op>, pos: nat, a: seq<bv8>, b: seq<bv8>)
    ensures Encoded(ops, pos, a + b) == Encoded(ops, pos, a) + Encoded(ops, pos + |a|, b)
  {
    var whole, parts := Encoded(ops, pos, a + b), Encoded(ops, pos, a) + Encoded(ops, pos + |a|, b);
    forall i | 0 <= i < |whole| ensures whole[i] == parts[i] {
      assert i >= |a| ==> pos + i == pos + |a| + (i - |a|);
    }
  }

  /** What was written is read back, at every position. */
  lemma StreamRoundTrip(ops: seq<Op>, pos: nat, data: seq<bv8>)
    ensures Decoded(ops, pos, Encoded(ops, pos, data)) == data
  {
    forall i | 0 <= i < |data|
      ensures DecodeAll(ops, PosByte(pos + i), EncodeAll(ops, PosByte(pos + i), data[i])) == data[i]
    {
      StackRoundTrip(ops, PosByte(pos + i), data[i]);
    }
  }

  /** The first operations, then the others; undone from the last. */
  lemma {:induction false} EncodedInTurn(ops: seq<Op>, more: seq<Op>, pos: nat, data: seq<bv8>)
    ensures Encoded(ops + more, pos, data) == Encoded(more, pos, Encoded(ops, pos, data))
    ensures Decoded(ops + more, pos, data) == Decoded(ops, pos, Decoded(more, pos, data))
  {
    forall i | 0 <= i < |data|
      ensures Encoded(ops + more, pos, data)[i] == Encoded(more, pos, Encoded(ops, pos, data))[i]
      ensures Decoded(ops + more, pos, data)[i] == Decoded(ops, pos, Decoded(more, pos, data))[i]
    {
      AllInTurn(ops, more, PosByte(pos + i), data[i]);
    }
  }

  lemma {:induction false} AllInTurn(ops: seq<Op>, more: seq<Op>, p: bv8, b: bv8)
    ensures EncodeAll(ops + more, p, b) == EncodeAll(more, p, EncodeAll(ops, p, b))
    ensures DecodeAll(ops + more, p, b) == DecodeAll(ops, p, DecodeAll(more, p, b))
    decreases |ops|
  {
    if ops == [] {
      assert ops + more == more;
    } else {
      assert (ops + more)[1..] == ops[1..] + more;
      AllInTurn(ops[1..], more, p, EncodeByte(ops[0], p, b));
      AllInTurn(ops[1..], more, p, b);
    }
  }

  // ---------- what one layer does to a stream ----------

  lemma Increment(x: bv8)
    requires x as nat < 255
    ensures (x + 1) as nat == x as nat + 1
  {
  }

  ghost function Counted(n: nat): bv8 {
    if n == 0 then 0 else Counted(n - 1) + 1
  }

  lemma {:induction false} CountedIs(n: nat)
    requires n < 256
    ensures Counted(n) as nat == n
  {
    if n > 0 {
      CountedIs(n - 1);
      Increment(Counted(n - 1));
    }
  }

  lemma {:induction false} ByteOfValue(b: bv8, n: nat)
    requires b as nat == n < 256
    ensures n as bv8 == b
  {
  }

  lemma {:induction false} PosByteIs(pos: nat)
    ensures PosByte(pos) as nat == pos % 256
  {
    CountedIs(pos % 256);
    ByteOfValue(Counted(pos % 256), pos % 256);
  }

  lemma {:induction false} OneLayer(op: Op, pos: nat, data: seq<bv8>, i: nat)
    requires i < |data|
    ensures Encoded([op], pos, data)[i] == EncodeByte(op, PosByte(pos + i), data[i])
  {
    OneOp(op, PosByte(pos + i), data[i]);
  }

  lemma {:induction false} OneOp(op: Op, p: bv8, b: bv8)
    ensures EncodeAll([op], p, b) == EncodeByte(op, p, b)
    ensures DecodeAll([op], p, b) == DecodeByte(op, p, b)
  {
    assert [op][1..] == [];
    assert EncodeAll([], p, EncodeByte(op, p, b)) == EncodeByte(op, p, b) && DecodeAll([], p, b) == b;
  }

  lemma SumBack(b: bv8, n: bv8, d: bv8)
    requires d == b + n
    ensures b == d - n
  {
  }

  lemma ModBack(b: nat, n: nat, d: nat)
    requires b == (d - n) % 256 && b < 256 && n < 256 && d < 256
    ensures d == (b + n) % 256
  {
  }

  lemma {:induction false} SumVal(b: bv8, n: bv8, d: bv8)
    requires d == b + n
    ensures Val(d) == (Val(b) + Val(n)) % 256
  {
    SumBack(b, n, d);
    SubtractLowers(d, n, b);
    LoweredVal(Val(n), d);
    ValBound(b);
    ValBound(n);
    ValBound(d);
    ModBack(Val(b), Val(n), Val(d));
  }

  lemma {:induction false} SumIs(b: bv8, n: bv8, d: bv8)
    requires d == b + n
    ensures d as nat == (b as nat + n as nat) % 256
  {
    SumVal(b, n, d);
    ValIs(b);
    ValIs(n);
    ValIs(d);
  }

  /** The adding layers add, modulo 256; at stream position k, AddPos adds k. */
  lemma {:induction false} AddsByValue(n: bv8, pos: nat, data: seq<bv8>, i: nat)
    requires i < |data|
    ensures Encoded([Add(n)], pos, data)[i] as nat == (data[i] as nat + n as nat) % 256
    ensures Encoded([AddPos], pos, data)[i] as nat == (data[i] as nat + pos + i) % 256
  {
    AddsConstant(n, pos, data, i, Encoded([Add(n)], pos, data)[i]);
    AddsPosition(pos, data, i);
  }

  lemma {:induction false} AddsConstant(n: bv8, pos: nat, data: seq<bv8>, i: nat, d: bv8)
    requires i < |data| && d == Encoded([Add(n)], pos, data)[i]
    ensures d as nat == (data[i] as nat + n as nat) % 256
  {
    OneLayer(Add(n), pos, data, i);
    SumIs(data[i], n, d);
  }

  lemma {:induction false} AddsPosition(pos: nat, data: seq<bv8>, i: nat)
    requires i < |data|
    ensures Encoded([AddPos], pos, data)[i] as nat == (data[i] as nat + pos + i) % 256
  {
    var p, b := PosByte(pos + i), data[i];
    var d := Encoded([AddPos], pos, data)[i];
    AddsPosByte(pos, data, i, d, p);
    PosByteIs(pos + i);
    ModSum(b as nat, p as nat, pos + i, d as nat);
  }

  lemma {:induction false} AddsPosByte(pos: nat, data: seq<bv8>, i: nat, d: bv8, p: bv8)
    requires i < |data| && p == PosByte(pos + i) && d == Encoded([AddPos], pos, data)[i]
    ensures d as nat == (data[i] as nat + p as nat) % 256
  {
    OneLayer(AddPos, pos, data, i);
    SumIs(data[i], p, d);
  }

  lemma ModSum(b: nat, p: nat, k: nat, d: nat)
    requires d == (b + p) % 256 && p == k % 256
    ensures d == (b + k) % 256
  {
  }

  /** The weight of bit k. */
  function Weight(k: nat): (w: bv8)
    requires k < 8
    ensures w == 1 || w == 2 || w == 4 || w == 8 || w == 16 || w == 32 || w == 64 || w == 128
  {
    match k
    case 0 => 1
    case 1 => 2
    case 2 => 4
    case 3 => 8
    case 4 => 16
    case 5 => 32
    case 6 => 64
    case 7 => 128
  }

  predicate Bit(b: bv8, k: nat)
    requires k < 8
  {
    b & Weight(k) != 0
  }

  lemma MaskedXor(x: bv8, y: bv8, z: bv8, m: bv8)
    requires m == 1 || m == 2 || m == 4 || m == 8 || m == 16 || m == 32 || m == 64 || m == 128
    requires z == x ^ y
    ensures z & m != 0 <==> (x & m != 0) != (y & m != 0)
  {
  }

  lemma {:induction false} BitOfXor(x: bv8, y: bv8, z: bv8, k: nat)
    requires k < 8 && z == x ^ y
    ensures Bit(z, k) <==> Bit(x, k) != Bit(y, k)
  {
    var w := Weight(k);
    MaskedXor(x, y, z, w);
    assert (z & w != 0) == Bit(z, k) && (x & w != 0) == Bit(x, k) && (y & w != 0) == Bit(y, k);
  }

  lemma MirroredBits(b: bv8)
    ensures Reverse8(b) & 1 != 0 <==> b & 128 != 0
    ensures Reverse8(b) & 2 != 0 <==> b & 64 != 0
    ensures Reverse8(b) & 4 != 0 <==> b & 32 != 0
    ensures Reverse8(b) & 8 != 0 <==> b & 16 != 0
    ensures Reverse8(b) & 16 != 0 <==> b & 8 != 0
    ensures Reverse8(b) & 32 != 0 <==> b & 4 != 0
    ensures Reverse8(b) & 64 != 0 <==> b & 2 != 0
    ensures Reverse8(b) & 128 != 0 <==> b & 1 != 0
  {
  }

  lemma {:induction false} BitOfReverse(b: bv8, k: nat)
    requires k < 8
    ensures Bit(Reverse8(b), k) <==> Bit(b, 7 - k)
  {
    MirroredBits(b);
  }

  /** The other layers mirror or flip bits; at stream position k, XorPos flips the bits of k modulo 256. */
  lemma {:induction false} FlipsByBit(n: bv8, p: bv8, pos: nat, data: seq<bv8>, i: nat, k: nat)
    requires i < |data| && k < 8 && p as nat == (pos + i) % 256
    ensures Bit(Encoded([ReverseBits], pos, data)[i], k) <==> Bit(data[i], 7 - k)
    ensures Bit(Encoded([Xor(n)], pos, data)[i], k) <==> Bit(data[i], k) != Bit(n, k)
    ensures Bit(Encoded([XorPos], pos, data)[i], k) <==> Bit(data[i], k) != Bit(p, k)
  {
    MirrorsByBit(pos, data, i, k);
    OneLayer(Xor(n), pos, data, i);
    BitOfXor(data[i], n, Encoded([Xor(n)], pos, data)[i], k);
    FlipsPosition(p, pos, data, i, k);
  }

  lemma {:induction false} MirrorsByBit(pos: nat, data: seq<bv8>, i: nat, k: nat)
    requires i < |data| && k < 8
    ensures Bit(Encoded([ReverseBits], pos, data)[i], k) <==> Bit(data[i], 7 - k)
  {
    OneLayer(ReverseBits, pos, data, i);
    BitOfReverse(data[i], k);
  }

  lemma {:induction false} FlipsPosition(p: bv8, pos: nat, data: seq<bv8>, i: nat, k: nat)
    requires i < |data| && k < 8 && p as nat == (pos + i) % 256
    ensures Bit(Encoded([XorPos], pos, data)[i], k) <==> Bit(data[i], k) != Bit(p, k)
  {
    PosByteOf(p, pos + i);
    FlipsPosByte(p, pos, data, i, k);
  }

  lemma {:induction false} PosByteOf(p: bv8, pos: nat)
    requires p as nat == pos % 256
    ensures p == PosByte(pos)
  {
    ByteOfValue(p, pos % 256);
  }

  lemma {:induction false} FlipsPosByte(p: bv8, pos: nat, data: seq<bv8>, i: nat, k: nat)
    requires i < |data| && k < 8 && p == PosByte(pos + i)
    ensures Bit(Encoded([XorPos], pos, data)[i], k) <==> Bit(data[i], k) != Bit(p, k)
  {
    OneLayer(XorPos, pos, data, i);
    BitOfXor(data[i], p, Encoded([XorPos], pos, data)[i], k);
  }

  /** Over zero bytes, the two layers that use the position write it out, modulo 256. */
  lemma {:induction false} PositionsOnTheWire(pos: nat, data: seq<bv8>, i: nat)
    requires i < |data| && data[i] == 0
    ensures Encoded([XorPos], pos, data)[i] as nat == (pos + i) % 256
    ensures Encoded([AddPos], pos, data)[i] as nat == (pos + i) % 256
  {
    OneLayer(XorPos, pos, data, i);
    OneLayer(AddPos, pos, data, i);
    PosByteIs(pos + i);
    assert 0 ^ PosByte(pos + i) == PosByte(pos + i) && 0 + PosByte(pos + i) == PosByte(pos + i);
  }

  lemma {:induction false} SamePosBytes(p: nat, q: nat, i: nat)
    requires p % 256 == q % 256
    ensures PosByte(p + i) == PosByte(q + i)
  {
    SameRemainder(p, q, i);
  }

  lemma SameRemainder(p: nat, q: nat, i: nat)
    requires p % 256 == q % 256
    ensures (p + i) % 256 == (q + i) % 256
  {
  }

  lemma {:induction false} SameStreams(ops: seq<Op>, p: nat, q: nat, data: seq<bv8>)
    requires p % 256 == q % 256
    ensures Encoded(ops, p, data) == Encoded(ops, q, data) && Decoded(ops, p, data) == Decoded(ops, q, data)
  {
    forall i | 0 <= i < |data|
      ensures Encoded(ops, p, data)[i] == Encoded(ops, q, data)[i]
      ensures Decoded(ops, p, data)[i] == Decoded(ops, q, data)[i]
    {
      SamePosBytes(p, q, i);
    }
  }

  /** All ciphers write alike from two positions exactly when these are equal modulo 256, and then they read alike. */
  lemma {:induction false} PositionsWrap(p: nat, q: nat)
    ensures (forall ops, data :: Encoded(ops, p, data) == Encoded(ops, q, data)) <==> p % 256 == q % 256
    ensures (forall ops, data :: Decoded(ops, p, data) == Decoded(ops, q, data)) <==> p % 256 == q % 256
  {
    if p % 256 == q % 256 {
      forall ops, data
        ensures Encoded(ops, p, data) == Encoded(ops, q, data) && Decoded(ops, p, data) == Decoded(ops, q, data)
      {
        SameStreams(ops, p, q, data);
      }
    } else {
      PositionsOnTheWire(p, [0], 0);
      PositionsOnTheWire(q, [0], 0);
      assert Encoded([XorPos], p, [0]) != Encoded([XorPos], q, [0]);
      FlipsItself(p);
      FlipsItself(q);
      assert Decoded([XorPos], p, [0]) != Decoded([XorPos], q, [0]);
    }
  }

  lemma {:induction false} FlipsItself(pos: nat)
    ensures Decoded([XorPos], pos, [0]) == Encoded([XorPos], pos, [0])
  {
    OneOp(XorPos, PosByte(pos), 0);
  }

  // ---------- writers and readers ----------

  /** One layer applied in place to a whole buffer that starts at position pos. */
  method EncodeLayer(op: Op, pos: nat, p: array<bv8>)
    modifies p
    ensures forall i :: 0 <= i < p.Length ==> p[i] == EncodeByte(op, PosByte(pos + i), old(p[i]))
  {
    for k := 0 to p.Length
      invariant forall i :: 0 <= i < k ==> p[i] == EncodeByte(op, PosByte(pos + i), old(p[i]))
      invariant forall i :: k <= i < p.Length ==> p[i] == old(p[i])
    {
      var b := EncodeByte(op, PosByte(pos + k), p[k]);
      p[k] := b;
    }
  }

  method DecodeLayer(op: Op, pos: nat, p: array<bv8>)
    modifies p
    ensures forall i :: 0 <= i < p.Length ==> p[i] == DecodeByte(op, PosByte(pos + i), old(p[i]))
  {
    for k := 0 to p.Length
      invariant forall i :: 0 <= i < k ==> p[i] == DecodeByte(op, PosByte(pos + i), old(p[i]))
      invariant forall i :: k <= i < p.Length ==> p[i] == old(p[i])
    {
      var b := DecodeByte(op, PosByte(pos + k), p[k]);
      p[k] := b;
    }
  }

  lemma {:induction false} EncodeSnoc(ops: seq<Op>, op: Op, p: bv8, b: bv8)
    ensures EncodeAll(ops + [op], p, b) == EncodeByte(op, p, EncodeAll(ops, p, b))
    decreases |ops|
  {
    if ops == [] {
      assert ops + [op] == [op] && [op][1..] == [];
    } else {
      assert (ops + [op])[1..] == ops[1..] + [op];
      EncodeSnoc(ops[1..], op, p, EncodeByte(ops[0], p, b));
    }
  }

  /** The writer stack over a connection. */
  class Writer {
    const ops: seq<Op>
    var pos: seq<nat>        // each layer counts the bytes that have passed it
    var wire: seq<bv8>       // what has been sent

    /** Every layer stands at the number of bytes written so far. */
    ghost predicate Valid()
      reads this
    {
      |pos| == |ops| && forall k :: 0 <= k < |pos| ==> pos[k] == |wire|
    }

    constructor (ops: seq<Op>)
      ensures Valid() && this.ops == ops && wire == []
    {
      this.ops := ops;
      pos := seq(|ops|, _ => 0);
      wire := [];
    }

    /** Encodes the caller's buffer in place, layer by layer, and sends it. */
    method Write(p: array<bv8>)
      requires Valid()
      modifies this`pos, this`wire, p
      ensures Valid() && wire == old(wire) + p[..]
      ensures p[..] == Encoded(ops, |old(wire)|, old(p[..]))
    {
      ghost var start := |wire|;
      for k := 0 to |ops|
        invariant pos == old(pos) && wire == old(wire)
        invariant forall i :: 0 <= i < p.Length ==> p[i] == EncodeAll(ops[..k], PosByte(start + i), old(p[i]))
      {
        ghost var before := p[..];
        EncodeLayer(ops[k], pos[k], p);
        assert ops[..k + 1] == ops[..k] + [ops[k]];
        forall i | 0 <= i < p.Length
          ensures p[i] == EncodeAll(ops[..k + 1], PosByte(start + i), old(p[i]))
        {
          EncodeSnoc(ops[..k], ops[k], PosByte(start + i), old(p[i]));
          assert before[i] == EncodeAll(ops[..k], PosByte(start + i), old(p[i]));
        }
      }
      assert ops[..|ops|] == ops;
      wire := wire + p[..];
      pos := seq(|ops|, k requires 0 <= k < |ops| && |pos| == |ops| reads this => pos[k] + p.Length);
    }
  }

  /** The reader stack over a connection. */
  class Reader {
    const ops: seq<Op>
    var pos: seq<nat>
    var source: seq<bv8>     // ciphertext received and not yet read

    ghost predicate Valid(count: nat)
      reads this
    {
      |pos| == |ops| && forall k :: 0 <= k < |pos| ==> pos[k] == count
    }

    constructor (ops: seq<Op>)
      ensures Valid(0) && this.ops == ops && source == []
    {
      this.ops := ops;
      pos := seq(|ops|, _ => 0);
      source := [];
    }

    /**
     * Takes n bytes from the connection into the buffer and decodes the whole buffer in place, last
     * layer first; only the first n bytes count.
     */
    method Read(p: array<bv8>, n: nat, ghost count: nat)
      requires Valid(count) && n <= p.Length && n <= |source|
      modifies this`pos, this`source, p
      ensures Valid(count + n) && source == old(source)[n..]
      ensures p[..n] == Decoded(ops, count, old(source)[..n])
    {
      Copy(p, source[..n]);
      ghost var raw := p[..];
      var k := |ops|;
      assert ops[|ops|..] == [];
      while k > 0
        invariant 0 <= k <= |ops| && pos == old(pos) && source == old(source)
        invariant forall i :: 0 <= i < p.Length ==> p[i] == DecodeAll(ops[k..], PosByte(count + i), raw[i])
      {
        k := k - 1;
        ghost var before := p[..];
        DecodeLayer(ops[k], pos[k], p);
        assert ops[k..][1..] == ops[k + 1..];
        forall i | 0 <= i < p.Length ensures p[i] == DecodeAll(ops[k..], PosByte(count + i), raw[i]) {
          assert before[i] == DecodeAll(ops[k + 1..], PosByte(count + i), raw[i]);
        }
      }
      assert ops[0..] == ops;
      source := source[n..];
      pos := seq(|ops|, j requires 0 <= j < |ops| && |pos| == |ops| reads this => pos[j] + n);
    }
  }

  method Copy(p: array<bv8>, data: seq<bv8>)
    requires |data| <= p.Length
    modifies p
    ensures p[..|data|] == data
  {
    forall i | 0 <= i < |data| {
      p[i] := data[i];
    }
  }

  // ---------- a conversation ----------

  /** A write of some bytes, or a read into a buffer of some size that the connection fills up to some point. */
  datatype Event = Send(data: seq<bv8>) | Receive(size: nat, n: nat)

  /** What is still on the wire, decoded, continues what has been read. */
  lemma ReceivedContinues(ops: seq<Op>, plain: seq<bv8>, got: nat, n: nat)
    requires got + n <= |plain|
    ensures Encoded(ops, got, plain[got..])[n..] == Encoded(ops, got + n, plain[got + n..])
    ensures Decoded(ops, got, Encoded(ops, got, plain[got..])[..n]) == plain[got..got + n]
  {
    var a, b := plain[got..got + n], plain[got + n..];
    assert plain[got..] == a + b;
    EncodedSplits(ops, got, a, b);
    var e := Encoded(ops, got, plain[got..]);
    assert e[..n] == Encoded(ops, got, a) && e[n..] == Encoded(ops, got + n, b);
    StreamRoundTrip(ops, got, a);
  }

  lemma SentContinues(ops: seq<Op>, plain: seq<bv8>, got: nat, data: seq<bv8>)
    requires got <= |plain|
    ensures Encoded(ops, got, (plain + data)[got..]) == Encoded(ops, got, plain[got..]) + Encoded(ops, |plain|, data)
  {
    assert (plain + data)[got..] == plain[got..] + data;
    EncodedSplits(ops, got, plain[got..], data);
  }

  /** Both ends stand where they should, and the wire holds what has been written and not yet read. */
  ghost predicate InStep(w: Writer, r: Reader, ops: seq<Op>, plain: seq<bv8>, got: seq<bv8>)
    reads w, r
  {
    && w.ops == r.ops == ops && w.Valid() && r.Valid(|got|) && |w.wire| == |plain|
    && got <= plain && r.source == Encoded(ops, |got|, plain[|got|..])
  }

  method DoSend(w: Writer, r: Reader, data: seq<bv8>, ghost ops: seq<Op>, ghost plain: seq<bv8>, ghost got: seq<bv8>)
    requires InStep(w, r, ops, plain, got)
    modifies w, r
    ensures InStep(w, r, ops, plain + data, got)
  {
    SentContinues(ops, plain, |got|, data);
    var p := new bv8[|data|](i requires 0 <= i < |data| => data[i]);
    assert p[..] == data;
    w.Write(p);
    r.source := r.source + p[..];
  }

  method DoReceive(w: Writer, r: Reader, size: nat, want: nat, ghost ops: seq<Op>, ghost plain: seq<bv8>,
                   ghost got: seq<bv8>)
    returns (bytes: seq<bv8>)
    requires InStep(w, r, ops, plain, got)
    modifies w, r
    ensures InStep(w, r, ops, plain, got + bytes) && |bytes| == Min(Min(size, want), |plain| - |got|)
  {
    var n := Min(Min(size, want), |r.source|);
    ReceivedContinues(ops, plain, |got|, n);
    var p := new bv8[size](_ => 0);
    r.Read(p, n, |got|);
    bytes := p[..n];
  }

  /**
   * For every list of operations and every interleaving of writes and reads, cut in any way, what has
   * been read is exactly the beginning of what has been written.
   */
  method Converse(ops: seq<Op>, events: seq<Event>) returns (plain: seq<bv8>, got: seq<bv8>)
    ensures got <= plain
    ensures plain == Flatten(Writes(events))
    ensures |got| == ReadLength(events, |events|)
  {
    var w := new Writer(ops);
    var r := new Reader(ops);
    plain, got := [], [];
    for k := 0 to |events|
      invariant InStep(w, r, ops, plain, got)
      invariant plain == Flatten(Writes(events[..k])) && |got| == ReadLength(events, k)
      modifies w, r
    {
      WritesSnoc(events, k);
      match events[k] {
        case Send(data) =>
          DoSend(w, r, data, ops, plain, got);
          plain := plain + data;
        case Receive(size, want) =>
          var bytes := DoReceive(w, r, size, want, ops, plain, got);
          got := got + bytes;
      }
    }
    assert events[..|events|] == events;
  }

  /** How many bytes the first k events read: each read gets what it asks for, or all there is. */
  function ReadLength(events: seq<Event>, k: nat): nat
    requires k <= |events|
  {
    if k == 0 then 0
    else
      var before := ReadLength(events, k - 1);
      match events[k - 1]
      case Send(_) => before
      case Receive(size, want) => before + Max(0, Min(Min(size, want), |Flatten(Writes(events[..k - 1]))| - before))
  }

  function Writes(events: seq<Event>): seq<seq<bv8>> {
    if events == [] then [] else (if events[0].Send? then [events[0].data] else []) + Writes(events[1..])
  }

  lemma {:induction false} WritesAppend(events: seq<Event>, e: Event)
    ensures Writes(events + [e]) == Writes(events) + (if e.Send? then [e.data] else [])
  {
    if events == [] {
      assert events + [e] == [e] && [e][1..] == [];
    } else {
      assert (events + [e])[1..] == events[1..] + [e];
      WritesAppend(events[1..], e);
      ConcatAssoc(if events[0].Send? then [events[0].data] else [], Writes(events[1..]),
                  if e.Send? then [e.data] else []);
    }
  }

  lemma WritesSnoc(events: seq<Event>, k: nat)
    requires k < |events|
    ensures Flatten(Writes(events[..k + 1])) ==
            Flatten(Writes(events[..k])) + (if events[k].Send? then events[k].data else [])
  {
    assert events[..k + 1] == events[..k] + [events[k]];
    WritesAppend(events[..k], events[k]);
    if events[k].Send? {
      FlattenSnoc(Writes(events[..k]), events[k].data);
    } else {
      assert Writes(events[..k]) + [] == Writes(events[..k]);
      assert Flatten(Writes(events[..k])) + [] == Flatten(Writes(events[..k]));
    }
  }

  // ---------- cipher specs ----------

  /** The text "4x dog,5x car\n" that a spec must change. */
  const VALIDATION: seq<bv8> := [52, 120, 32, 100, 111, 103, 44, 53, 120, 32, 99, 97, 114, 10]

  lemma ValidationText()
    ensures |VALIDATION| == |"4x dog,5x car\n"|
    ensures forall i :: 0 <= i < |VALIDATION| ==> VALIDATION[i] as char == "4x dog,5x car\n"[i]
  {
  }

  datatype SpecResult = Spec(ops: seq<Op>, rest: seq<bv8>) | Malformed | NoOp

  /** Operations up to the closing zero byte; None when the bytes end early or an operation is unknown. */
  function ParseSpec(bytes: seq<bv8>): Option<(seq<Op>, seq<bv8>)> {
    if bytes == [] then None
    else if bytes[0] == 0 then Some(([], bytes[1..]))
    else if bytes[0] == 1 then Prepend(ReverseBits, ParseSpec(bytes[1..]))
    else if bytes[0] == 3 then Prepend(XorPos, ParseSpec(bytes[1..]))
    else if bytes[0] == 5 then Prepend(AddPos, ParseSpec(bytes[1..]))
    else if |bytes| == 1 then None
    else if bytes[0] == 2 then Prepend(Xor(bytes[1]), ParseSpec(bytes[2..]))
    else if bytes[0] == 4 then Prepend(Add(bytes[1]), ParseSpec(bytes[2..]))
    else None
  }

  function Prepend(op: Op, r: Option<(seq<Op>, seq<bv8>)>): Option<(seq<Op>, seq<bv8>)> {
    match r
    case None => None
    case Some((ops, rest)) => Some(([op] + ops, rest))
  }

  function SpecByte(op: Op): seq<bv8> {
    match op
    case ReverseBits => [1]
    case Xor(n) => [2, n]
    case XorPos => [3]
    case Add(n) => [4, n]
    case AddPos => [5]
  }

  function SpecBytes(ops: seq<Op>): seq<bv8> {
    if ops == [] then [0] else SpecByte(ops[0]) + SpecBytes(ops[1..])
  }

  lemma ParseHead(op: Op, tail: seq<bv8>)
    ensures ParseSpec(SpecByte(op) + tail) == Prepend(op, ParseSpec(tail))
  {
    var bytes := SpecByte(op) + tail;
    assert bytes[|SpecByte(op)|..] == tail;
  }

  /** A written spec parses back, and the bytes after it are left for the stream. */
  lemma {:induction false} SpecRoundTrip(ops: seq<Op>, rest: seq<bv8>)
    ensures ParseSpec(SpecBytes(ops) + rest) == Some((ops, rest))
    decreases |ops|
  {
    if ops == [] {
      assert ([0] + rest)[1..] == rest;
    } else {
      ConcatAssoc(SpecByte(ops[0]), SpecBytes(ops[1..]), rest);
      ParseHead(ops[0], SpecBytes(ops[1..]) + rest);
      SpecRoundTrip(ops[1..], rest);
      assert [ops[0]] + ops[1..] == ops;
    }
  }

  lemma {:induction false} SpecFirst(op: Op, ops: seq<Op>, bytes: seq<bv8>)
    requires SpecBytes(ops) == bytes
    ensures SpecBytes([op] + ops) == SpecByte(op) + bytes
  {
    assert ([op] + ops)[1..] == ops;
  }

  /** The bytes that name the operations; 2 and 4 are followed by a parameter, and 0 closes the list. */
  lemma {:induction false} SpecOnTheWire(n: bv8, m: bv8, rest: seq<bv8>)
    ensures ParseSpec([1, 2, n, 3, 4, m, 5, 0] + rest) ==
            Some(([ReverseBits, Xor(n), XorPos, Add(m), AddPos], rest))
  {
    SpecFirst(AddPos, [], [0]);
    SpecFirst(Add(m), [AddPos] + [], [5, 0]);
    SpecFirst(XorPos, [Add(m)] + ([AddPos] + []), [4, m, 5, 0]);
    SpecFirst(Xor(n), [XorPos] + ([Add(m)] + ([AddPos] + [])), [3, 4, m, 5, 0]);
    var ops := [Xor(n)] + ([XorPos] + ([Add(m)] + ([AddPos] + [])));
    SpecFirst(ReverseBits, ops, [2, n, 3, 4, m, 5, 0]);
    assert SpecBytes([ReverseBits] + ops) == [1, 2, n, 3, 4, m, 5, 0];
    SpecRoundTrip([ReverseBits] + ops, rest);
    assert [ReverseBits] + ops == [ReverseBits, Xor(n), XorPos, Add(m), AddPos];
  }

  /** A cipher that changes nothing. */
  ghost predicate IsNoOp(ops: seq<Op>) {
    forall pos: nat, b: bv8 :: DecodeAll(ops, PosByte(pos), b) == b
  }

  predicate LooksNoOp(ops: seq<Op>) {
    Decoded(ops, 0, VALIDATION) == VALIDATION
  }

  lemma NoOpsAreCaught(ops: seq<Op>)
    requires IsNoOp(ops)
    ensures LooksNoOp(ops)
  {
    forall i | 0 <= i < |VALIDATION| ensures Decoded(ops, 0, VALIDATION)[i] == VALIDATION[i] {
      assert DecodeAll(ops, PosByte(0 + i), VALIDATION[i]) == VALIDATION[i];
    }
  }

  // ---------- where the test is exact ----------

  /** Only operations that move and flip bits. */
  predicate Bitwise(ops: seq<Op>) {
    forall i :: 0 <= i < |ops| ==> ops[i].ReverseBits? || ops[i].Xor? || ops[i].XorPos?
  }

  /** Only operations that add. */
  predicate Additive(ops: seq<Op>) {
    forall i :: 0 <= i < |ops| ==> ops[i].Add? || ops[i].AddPos?
  }

  // ----- a stack of bitwise layers: the byte, reversed or not, and a mask that is flipped in

  datatype Masked = Masked(byte: bv8, mask: bv8)

  predicate Flips(d: bv8, k: Masked) {
    d == k.byte ^ k.mask
  }

  function MaskStep(op: Op, p: bv8, k: Masked): Masked {
    match op
    case ReverseBits => Masked(Reverse8(k.byte), Reverse8(k.mask))
    case Xor(n) => Masked(k.byte, k.mask ^ n)
    case XorPos => Masked(k.byte, k.mask ^ p)
    case _ => k
  }

  function MaskedOf(ops: seq<Op>, p: bv8, b: bv8): Masked {
    if ops == [] then Masked(b, 0) else MaskStep(ops[0], p, MaskedOf(ops[1..], p, b))
  }

  lemma Reverse8Xor(x: bv8, y: bv8)
    ensures Reverse8(x ^ y) == Reverse8(x) ^ Reverse8(y)
  {
  }

  lemma FlipReversed(d: bv8, x: bv8, m: bv8)
    requires d == x ^ m
    ensures Reverse8(d) == Reverse8(x) ^ Reverse8(m)
  {
    Reverse8Xor(x, m);
  }

  lemma FlipMore(d: bv8, x: bv8, m: bv8, n: bv8)
    requires d == x ^ m
    ensures d ^ n == x ^ (m ^ n)
  {
  }

  lemma {:induction false} FlipStep(op: Op, p: bv8, d: bv8, k: Masked)
    requires (op.ReverseBits? || op.Xor? || op.XorPos?) && Flips(d, k)
    ensures Flips(DecodeByte(op, p, d), MaskStep(op, p, k))
  {
    match op {
      case ReverseBits => FlipStepReverse(p, d, k);
      case Xor(n) => FlipStepXor(n, p, d, k);
      case XorPos => FlipStepPos(p, d, k);
    }
  }

  lemma {:induction false} FlipStepReverse(p: bv8, d: bv8, k: Masked)
    requires Flips(d, k)
    ensures Flips(DecodeByte(ReverseBits, p, d), MaskStep(ReverseBits, p, k))
  {
    FlipReversed(d, k.byte, k.mask);
  }

  lemma {:induction false} FlipStepXor(n: bv8, p: bv8, d: bv8, k: Masked)
    requires Flips(d, k)
    ensures Flips(DecodeByte(Xor(n), p, d), MaskStep(Xor(n), p, k))
  {
    FlipMore(d, k.byte, k.mask, n);
  }

  lemma {:induction false} FlipStepPos(p: bv8, d: bv8, k: Masked)
    requires Flips(d, k)
    ensures Flips(DecodeByte(XorPos, p, d), MaskStep(XorPos, p, k))
  {
    FlipMore(d, k.byte, k.mask, p);
  }

  lemma {:induction false} DecodeFlips(ops: seq<Op>, p: bv8, b: bv8)
    requires Bitwise(ops)
    ensures Flips(DecodeAll(ops, p, b), MaskedOf(ops, p, b))
    decreases |ops|
  {
    if ops == [] {
      FlipNothing(b);
    } else {
      DecodeFlips(ops[1..], p, b);
      FlipStep(ops[0], p, DecodeAll(ops[1..], p, b), MaskedOf(ops[1..], p, b));
    }
  }

  lemma FlipNothing(b: bv8)
    ensures b == b ^ 0
  {
  }

  // ----- the mask: a constant, and what is left of the position

  datatype Parts = Parts(constant: bv8, pos: bv8)

  predicate Splits(m: bv8, h: Parts) {
    m == h.constant ^ h.pos
  }

  function PartsStep(op: Op, p: bv8, h: Parts): Parts {
    match op
    case ReverseBits => Parts(Reverse8(h.constant), Reverse8(h.pos))
    case Xor(n) => Parts(h.constant ^ n, h.pos)
    case XorPos => Parts(h.constant, h.pos ^ p)
    case _ => h
  }

  function PartsOf(ops: seq<Op>, p: bv8): Parts {
    if ops == [] then Parts(0, 0) else PartsStep(ops[0], p, PartsOf(ops[1..], p))
  }

  lemma FlipFirst(m: bv8, c: bv8, q: bv8, n: bv8)
    requires m == c ^ q
    ensures m ^ n == (c ^ n) ^ q
  {
  }

  lemma {:induction false} SplitReversed(p: bv8, k: Masked, h: Parts)
    requires Splits(k.mask, h)
    ensures Splits(MaskStep(ReverseBits, p, k).mask, PartsStep(ReverseBits, p, h))
  {
    FlipReversed(k.mask, h.constant, h.pos);
  }

  lemma {:induction false} SplitXor(n: bv8, p: bv8, k: Masked, h: Parts)
    requires Splits(k.mask, h)
    ensures Splits(MaskStep(Xor(n), p, k).mask, PartsStep(Xor(n), p, h))
  {
    FlipFirst(k.mask, h.constant, h.pos, n);
  }

  lemma {:induction false} SplitXorPos(p: bv8, k: Masked, h: Parts)
    requires Splits(k.mask, h)
    ensures Splits(MaskStep(XorPos, p, k).mask, PartsStep(XorPos, p, h))
  {
    FlipMore(k.mask, h.constant, h.pos, p);
  }

  lemma {:induction false} SplitStep(op: Op, p: bv8, k: Masked, h: Parts)
    requires Splits(k.mask, h)
    ensures Splits(MaskStep(op, p, k).mask, PartsStep(op, p, h))
  {
    match op {
      case ReverseBits => SplitReversed(p, k, h);
      case Xor(n) => SplitXor(n, p, k, h);
      case XorPos => SplitXorPos(p, k, h);
      case _ =>
    }
  }

  lemma {:induction false} MaskSplits(ops: seq<Op>, p: bv8, b: bv8)
    ensures Splits(MaskedOf(ops, p, b).mask, PartsOf(ops, p))
    decreases |ops|
  {
    if ops == [] {
      FlipNothing(0);
    } else {
      MaskSplits(ops[1..], p, b);
      SplitStep(ops[0], p, MaskedOf(ops[1..], p, b), PartsOf(ops[1..], p));
    }
  }

  // ----- the parts, for every position at once: which bits of the position are in, and whether the byte is reversed

  datatype Form = Form(reversed: bool, constant: bv8, pos: bool, reversedPos: bool)

  const PLAIN := Form(false, 0, false, false)

  function FormStep(op: Op, f: Form): Form {
    match op
    case ReverseBits => Form(!f.reversed, Reverse8(f.constant), f.reversedPos, f.pos)
    case Xor(n) => Form(f.reversed, f.constant ^ n, f.pos, f.reversedPos)
    case XorPos => Form(f.reversed, f.constant, !f.pos, f.reversedPos)
    case _ => f
  }

  function FormOf(ops: seq<Op>): Form {
    if ops == [] then PLAIN else FormStep(ops[0], FormOf(ops[1..]))
  }

  function If(c: bool, b: bv8): bv8 {
    if c then b else 0
  }

  function ReverseIf(c: bool, b: bv8): bv8 {
    if c then Reverse8(b) else b
  }

  predicate PosIs(q: bv8, pos: bool, reversedPos: bool, p: bv8) {
    q == If(pos, p) ^ If(reversedPos, Reverse8(p))
  }

  lemma ReverseByte(reversed: bool, b: bv8, x: bv8)
    requires x == ReverseIf(reversed, b)
    ensures Reverse8(x) == ReverseIf(!reversed, b)
  {
    Reverse8Twice(b);
  }

  lemma ReverseChosen(c: bool, p: bv8)
    ensures Reverse8(If(c, p)) == If(c, Reverse8(p)) && Reverse8(If(c, Reverse8(p))) == If(c, p)
  {
    Reverse8Twice(p);
    assert Reverse8(0) == 0;
  }

  lemma XorSwaps(x: bv8, y: bv8)
    ensures x ^ y == y ^ x
  {
  }

  lemma {:induction false} ReversePos(q: bv8, pos: bool, reversedPos: bool, p: bv8)
    requires PosIs(q, pos, reversedPos, p)
    ensures PosIs(Reverse8(q), reversedPos, pos, p)
  {
    Reverse8Xor(If(pos, p), If(reversedPos, Reverse8(p)));
    ReverseChosen(pos, p);
    ReverseChosen(reversedPos, p);
    XorSwaps(If(pos, Reverse8(p)), If(reversedPos, p));
  }

  lemma FlipPos(q: bv8, pos: bool, p: bv8, z: bv8)
    requires q == If(pos, p) ^ z
    ensures q ^ p == If(!pos, p) ^ z
  {
  }

  lemma {:induction false} PosReversed(p: bv8, h: Parts, f: Form)
    requires PosIs(h.pos, f.pos, f.reversedPos, p)
    ensures PosIs(PartsStep(ReverseBits, p, h).pos, f.reversedPos, f.pos, p)
  {
    ReversePos(h.pos, f.pos, f.reversedPos, p);
  }

  lemma {:induction false} PosFlipped(p: bv8, h: Parts, f: Form)
    requires PosIs(h.pos, f.pos, f.reversedPos, p)
    ensures PosIs(PartsStep(XorPos, p, h).pos, !f.pos, f.reversedPos, p)
  {
    FlipPos(h.pos, f.pos, p, If(f.reversedPos, Reverse8(p)));
  }

  lemma {:induction false} PosStepKeeps(op: Op, p: bv8, h: Parts, f: Form)
    requires PosIs(h.pos, f.pos, f.reversedPos, p)
    ensures PosIs(PartsStep(op, p, h).pos, FormStep(op, f).pos, FormStep(op, f).reversedPos, p)
  {
    match op {
      case ReverseBits => PosReversed(p, h, f);
      case XorPos => PosFlipped(p, h, f);
      case _ =>
    }
  }

  lemma {:induction false} PartsHavePos(ops: seq<Op>, p: bv8)
    ensures PosIs(PartsOf(ops, p).pos, FormOf(ops).pos, FormOf(ops).reversedPos, p)
    decreases |ops|
  {
    if ops == [] {
      assert PosIs(0, false, false, p);
    } else {
      PartsHavePos(ops[1..], p);
      PosStepKeeps(ops[0], p, PartsOf(ops[1..], p), FormOf(ops[1..]));
    }
  }

  lemma {:induction false} ConstantStepKeeps(op: Op, p: bv8, h: Parts, f: Form)
    requires h.constant == f.constant
    ensures PartsStep(op, p, h).constant == FormStep(op, f).constant
  {
    if op.ReverseBits? {
      assert PartsStep(op, p, h).constant == Reverse8(f.constant);
    } else if op.Xor? {
      assert PartsStep(op, p, h).constant == f.constant ^ op.n;
    }
  }

  lemma {:induction false} PartsHaveConstant(ops: seq<Op>, p: bv8)
    ensures PartsOf(ops, p).constant == FormOf(ops).constant
    decreases |ops|
  {
    if ops != [] {
      PartsHaveConstant(ops[1..], p);
      ConstantStepKeeps(ops[0], p, PartsOf(ops[1..], p), FormOf(ops[1..]));
    }
  }

  lemma {:induction false} ByteStepKeeps(op: Op, p: bv8, k: Masked, f: Form, b: bv8)
    requires k.byte == ReverseIf(f.reversed, b)
    ensures MaskStep(op, p, k).byte == ReverseIf(FormStep(op, f).reversed, b)
  {
    if op.ReverseBits? {
      ReverseByte(f.reversed, b, k.byte);
    }
  }

  lemma {:induction false} MaskedByte(ops: seq<Op>, p: bv8, b: bv8)
    ensures MaskedOf(ops, p, b).byte == ReverseIf(FormOf(ops).reversed, b)
    decreases |ops|
  {
    if ops != [] {
      MaskedByte(ops[1..], p, b);
      ByteStepKeeps(ops[0], p, MaskedOf(ops[1..], p, b), FormOf(ops[1..]), b);
    }
  }

  /** What a bitwise stack does to a byte: reverse it or not, flip in a constant and a part of the position. */
  ghost predicate HasForm(f: Form, p: bv8, b: bv8, d: bv8, k: Masked, h: Parts) {
    && Flips(d, k) && k.byte == ReverseIf(f.reversed, b)
    && Splits(k.mask, h) && h.constant == f.constant && PosIs(h.pos, f.pos, f.reversedPos, p)
  }

  lemma {:induction false} DecodeForm(ops: seq<Op>, p: bv8, b: bv8)
    requires Bitwise(ops)
    ensures HasForm(FormOf(ops), p, b, DecodeAll(ops, p, b), MaskedOf(ops, p, b), PartsOf(ops, p))
  {
    DecodeFlips(ops, p, b);
    MaskedByte(ops, p, b);
    MaskSplits(ops, p, b);
    PartsHaveConstant(ops, p);
    PartsHavePos(ops, p);
  }

  lemma ReversedBytes()
    ensures Reverse8(52) == 44 && Reverse8(120) == 30 && Reverse8(0) == 0 && Reverse8(1) == 128
  {
  }

  /** The first two bytes of the text tell every form from the plain one. */
  lemma {:induction false} TwoBytesFixForm(f: Form, k0: Masked, h0: Parts, k1: Masked, h1: Parts)
    requires HasForm(f, 0, 52, 52, k0, h0) && HasForm(f, 1, 120, 120, k1, h1)
    ensures f == PLAIN
  {
    ReversedBytes();
  }

  lemma PlainFlipsNothing(p: bv8, b: bv8, d: bv8, k: Masked, h: Parts)
    requires HasForm(PLAIN, p, b, d, k, h)
    ensures d == b
  {
  }

  lemma {:induction false} BitwiseIsPlain(ops: seq<Op>)
    requires Bitwise(ops) && DecodeAll(ops, 0, 52) == 52 && DecodeAll(ops, 1, 120) == 120
    ensures FormOf(ops) == PLAIN
  {
    DecodeForm(ops, 0, 52);
    DecodeForm(ops, 1, 120);
    TwoBytesFixForm(FormOf(ops), MaskedOf(ops, 0, 52), PartsOf(ops, 0), MaskedOf(ops, 1, 120), PartsOf(ops, 1));
  }

  lemma {:induction false} BitwiseIsNoOp(ops: seq<Op>, p: bv8, b: bv8)
    requires Bitwise(ops) && FormOf(ops) == PLAIN
    ensures DecodeAll(ops, p, b) == b
  {
    DecodeForm(ops, p, b);
    PlainFlipsNothing(p, b, DecodeAll(ops, p, b), MaskedOf(ops, p, b), PartsOf(ops, p));
  }

  // ----- a stack of additive layers: the byte lowered by one, a number of times

  function Lowered(k: nat, d: bv8): bv8 {
    if k == 0 then d else Lowered(k - 1, d) - 1
  }

  lemma {:induction false} LoweredTwice(j: nat, k: nat, d: bv8)
    ensures Lowered(j, Lowered(k, d)) == Lowered(j + k, d)
  {
    if j > 0 {
      LoweredTwice(j - 1, k, d);
    }
  }

  lemma Decrement(x: bv8)
    ensures (x - 1) as nat == if x == 0 then 255 else (x as nat) - 1
  {
  }

  lemma Smaller(x: bv8)
    requires x != 0
    ensures (x - 1) as nat < x as nat
  {
    Decrement(x);
  }

  /** The value of a byte, counted up from zero. */
  function Val(b: bv8): nat
    decreases b as nat
  {
    if b == 0 then 0
    else
      Smaller(b);
      1 + Val(b - 1)
  }

  lemma {:induction false} ValIs(b: bv8)
    ensures Val(b) == b as nat
    decreases b as nat
  {
    if b != 0 {
      Smaller(b);
      Decrement(b);
      ValIs(b - 1);
    }
  }

  lemma ValBound(b: bv8)
    ensures Val(b) < 256
  {
    ValIs(b);
  }

  lemma SameVal(x: bv8, y: bv8)
    requires Val(x) == Val(y)
    ensures x == y
  {
    ValIs(x);
    ValIs(y);
  }

  lemma ValPrevious(x: bv8)
    ensures Val(x - 1) == if x == 0 then 255 else Val(x) - 1
  {
    if x == 0 {
      assert x - 1 == 255;
      ValIs(255);
    }
  }

  lemma ModPrevious(v: int, k: int)
    ensures var u := (v - (k - 1)) % 256; (v - k) % 256 == if u == 0 then 255 else u - 1
  {
  }

  lemma {:induction false} LoweredVal(k: nat, d: bv8)
    ensures Val(Lowered(k, d)) == (Val(d) - k) % 256
  {
    if k == 0 {
      ValBound(d);
    } else {
      LoweredVal(k - 1, d);
      ValPrevious(Lowered(k - 1, d));
      ModPrevious(Val(d), k);
    }
  }

  lemma OneLess(d: bv8, n: bv8, e: bv8, n': bv8, e': bv8)
    requires e == d - n && n' == n - 1 && e' == e + 1
    ensures e' == d - n'
  {
  }

  lemma OneBack(e: bv8, e': bv8)
    requires e' == e + 1
    ensures e == e' - 1
  {
  }

  lemma {:induction false} SubtractLowers(d: bv8, n: bv8, e: bv8)
    requires e == d - n
    ensures e == Lowered(Val(n), d)
    decreases Val(n)
  {
    if n == 0 {
      assert e == d;
    } else {
      var n', e' := n - 1, e + 1;
      OneLess(d, n, e, n', e');
      SubtractLowers(d, n', e');
      OneBack(e, e');
    }
  }

  function LowerStep(op: Op, p: bv8, k: nat): nat {
    match op
    case Add(n) => Val(n) + k
    case AddPos => Val(p) + k
    case _ => k
  }

  function LoweredBy(ops: seq<Op>, p: bv8): nat {
    if ops == [] then 0 else LowerStep(ops[0], p, LoweredBy(ops[1..], p))
  }

  lemma {:induction false} LowerStepKeeps(op: Op, p: bv8, k: nat, d: bv8, b: bv8)
    requires (op.Add? || op.AddPos?) && d == Lowered(k, b)
    ensures DecodeByte(op, p, d) == Lowered(LowerStep(op, p, k), b)
  {
    var n := if op.Add? then op.n else p;
    SubtractLowers(d, n, d - n);
    LoweredTwice(Val(n), k, b);
  }

  lemma {:induction false} DecodeLowers(ops: seq<Op>, p: bv8, b: bv8)
    requires Additive(ops)
    ensures DecodeAll(ops, p, b) == Lowered(LoweredBy(ops, p), b)
    decreases |ops|
  {
    if ops != [] {
      DecodeLowers(ops[1..], p, b);
      LowerStepKeeps(ops[0], p, LoweredBy(ops[1..], p), DecodeAll(ops[1..], p, b), b);
    }
  }

  /** How much is a constant, and how often the position is added. */
  function Constants(ops: seq<Op>): nat {
    if ops == [] then 0 else Constants(ops[1..]) + if ops[0].Add? then Val(ops[0].n) else 0
  }

  function Positions(ops: seq<Op>): nat {
    if ops == [] then 0 else Positions(ops[1..]) + if ops[0].AddPos? then 1 else 0
  }

  lemma {:induction false} LoweredByIs(ops: seq<Op>, p: bv8)
    requires Additive(ops)
    ensures LoweredBy(ops, p) == Constants(ops) + Positions(ops) * Val(p)
    decreases |ops|
  {
    if ops != [] {
      LoweredByIs(ops[1..], p);
      var k := Positions(ops[1..]);
      assert (k + 1) * Val(p) == k * Val(p) + Val(p);
    }
  }

  lemma {:induction false} DecodeVal(ops: seq<Op>, p: bv8, b: bv8)
    requires Additive(ops)
    ensures Val(DecodeAll(ops, p, b)) == (Val(b) - Constants(ops) - Positions(ops) * Val(p)) % 256
  {
    DecodeLowers(ops, p, b);
    LoweredVal(LoweredBy(ops, p), b);
    LoweredByIs(ops, p);
  }

  lemma {:induction false} WholeTurns(c: nat, k: nat, p: int, b: int)
    requires c % 256 == 0 && k % 256 == 0 && 0 <= b < 256
    ensures (b - c - k * p) % 256 == b
  {
    var turns := c / 256 + (k / 256) * p;
    assert c == 256 * (c / 256) && k == 256 * (k / 256);
    assert k * p == 256 * ((k / 256) * p);
    assert b - c - k * p == b - 256 * turns;
  }

  lemma TwoBytesFixCounts(c: nat, k: nat)
    requires (52 - c - k * 0) % 256 == 52 && (120 - c - k * 1) % 256 == 120
    ensures c % 256 == 0 && k % 256 == 0
  {
  }

  lemma SmallVals()
    ensures Val(0) == 0 && Val(1) == 1 && Val(52) == 52 && Val(120) == 120
  {
    ValIs(1);
    ValIs(52);
    ValIs(120);
  }

  lemma {:induction false} AdditiveIsNoOp(ops: seq<Op>, p: bv8, b: bv8)
    requires Additive(ops) && DecodeAll(ops, 0, 52) == 52 && DecodeAll(ops, 1, 120) == 120
    ensures DecodeAll(ops, p, b) == b
  {
    SmallVals();
    DecodeVal(ops, 0, 52);
    DecodeVal(ops, 1, 120);
    TwoBytesFixCounts(Constants(ops), Positions(ops));
    DecodeVal(ops, p, b);
    ValBound(b);
    WholeTurns(Constants(ops), Positions(ops), Val(p), Val(b));
    SameVal(DecodeAll(ops, p, b), b);
  }

  lemma {:induction false} TestSeesTwoBytes(ops: seq<Op>)
    requires LooksNoOp(ops)
    ensures DecodeAll(ops, 0, 52) == 52 && DecodeAll(ops, 1, 120) == 120
  {
    assert Decoded(ops, 0, VALIDATION)[0] == VALIDATION[0];
    assert Decoded(ops, 0, VALIDATION)[1] == VALIDATION[1];
    assert PosByte(0) == 0 && PosByte(1) == 1;
  }

  /** For every cipher that does not mix the two kinds of operations, the test refuses exactly the no-ops. */
  lemma {:induction false} NoOpTestIsExact(ops: seq<Op>)
    requires Bitwise(ops) || Additive(ops)
    ensures LooksNoOp(ops) <==> IsNoOp(ops)
  {
    if LooksNoOp(ops) {
      TestSeesTwoBytes(ops);
      if Bitwise(ops) {
        BitwiseIsPlain(ops);
      }
      forall pos: nat, b: bv8 ensures DecodeAll(ops, PosByte(pos), b) == b {
        if Bitwise(ops) {
          BitwiseIsNoOp(ops, PosByte(pos), b);
        } else {
          AdditiveIsNoOp(ops, PosByte(pos), b);
        }
      }
    }
    if IsNoOp(ops) {
      NoOpsAreCaught(ops);
    }
  }

  const NIBBLE_CIPHER: seq<Op> := [XorPos, Add(16), XorPos, Add(240)]

  lemma NibbleDecode(p: bv8, b: bv8)
    ensures DecodeAll(NIBBLE_CIPHER, p, b) == (((b - 240) ^ p) - 16) ^ p
  {
    DecodeHead(Add(240), [], p, b);
    DecodeHead(XorPos, [Add(240)], p, b);
    DecodeHead(Add(16), [XorPos, Add(240)], p, b);
    DecodeHead(XorPos, [Add(16), XorPos, Add(240)], p, b);
    assert [Add(240)] + [] == [Add(240)] && [XorPos] + [Add(240)] == [XorPos, Add(240)];
    assert [Add(16)] + [XorPos, Add(240)] == [Add(16), XorPos, Add(240)];
    assert [XorPos] + [Add(16), XorPos, Add(240)] == NIBBLE_CIPHER;
  }

  lemma DecodeHead(op: Op, ops: seq<Op>, p: bv8, b: bv8)
    ensures DecodeAll([op] + ops, p, b) == DecodeByte(op, p, DecodeAll(ops, p, b))
  {
    assert ([op] + ops)[1..] == ops;
  }

  lemma LowPosition(pos: nat)
    requires pos < 16
    ensures PosByte(pos) < 16
  {
  }

  /** A cipher that mixes them, changes bytes from position 16 on, and yet is refused. */
  lemma NoOpTestIsTooStrict()
    ensures LooksNoOp(NIBBLE_CIPHER) && !IsNoOp(NIBBLE_CIPHER)
    ensures !Bitwise(NIBBLE_CIPHER) && !Additive(NIBBLE_CIPHER)
  {
    forall i | 0 <= i < |VALIDATION| ensures Decoded(NIBBLE_CIPHER, 0, VALIDATION)[i] == VALIDATION[i] {
      LowPosition(0 + i);
      NibbleDecode(PosByte(0 + i), VALIDATION[i]);
      NibbleCommutes(PosByte(0 + i), VALIDATION[i]);
    }
    assert NIBBLE_CIPHER[0].XorPos? && NIBBLE_CIPHER[1].Add?;
    assert PosByte(16) == 16;
    NibbleDecode(16, 0);
    assert DecodeAll(NIBBLE_CIPHER, PosByte(16), 0) != 0;
  }

  lemma NibbleCommutes(p: bv8, b: bv8)
    requires p < 16
    ensures (((b - 240) ^ p) - 16) ^ p == b
  {
  }

  lemma AppendParsed(done: seq<Op>, op: Op, r: Option<(seq<Op>, seq<bv8>)>)
    ensures Append(done, Prepend(op, r)) == Append(done + [op], r)
  {
    if r.Some? {
      ConcatAssoc(done, [op], r.value.0);
    }
  }

  ghost function Append(done: seq<Op>, r: Option<(seq<Op>, seq<bv8>)>): Option<(seq<Op>, seq<bv8>)> {
    match r
    case None => None
    case Some((ops, rest)) => Some((done + ops, rest))
  }

  /** The loop over the spec's bytes. */
  method ReadOps(bytes: seq<bv8>) returns (r: Option<(seq<Op>, seq<bv8>)>)
    ensures r == ParseSpec(bytes)
  {
    var ops: seq<Op> := [];
    var rest := bytes;
    ghost var result := ParseSpec(bytes);
    if result.Some? {
      assert [] + result.value.0 == result.value.0;
    }
    while true
      invariant Append(ops, ParseSpec(rest)) == result
      decreases |rest|
    {
      if rest == [] {
        return None;
      }
      var kind := rest[0];
      if kind == 0 {
        assert ops + [] == ops;
        return Some((ops, rest[1..]));
      }
      var op;
      var used := 1;
      if kind == 1 {
        op := ReverseBits;
      } else if kind == 3 {
        op := XorPos;
      } else if kind == 5 {
        op := AddPos;
      } else if kind == 2 || kind == 4 {
        if |rest| == 1 {
          return None;
        }
        op := if kind == 2 then Xor(rest[1]) else Add(rest[1]);
        used := 2;
      } else {
        return None;
      }
      AppendParsed(ops, op, ParseSpec(rest[used..]));
      ops := ops + [op];
      rest := rest[used..];
    }
  }

  /** Reads the spec and refuses it when the validation text would come through unchanged. */
  method ReadCipherSpec(bytes: seq<bv8>) returns (r: SpecResult)
    ensures r == match ParseSpec(bytes)
                 case None => Malformed
                 case Some((ops, rest)) => if LooksNoOp(ops) then NoOp else Spec(ops, rest)
    ensures r.Spec? ==> !IsNoOp(r.ops)
  {
    var parsed := ReadOps(bytes);
    if parsed.None? {
      return Malformed;
    }
    var ops := parsed.value.0;
    if IsNoOp(ops) {
      NoOpsAreCaught(ops);
    }
    var reader := new Reader(ops);
    reader.source := VALIDATION;
    var p := new bv8[|VALIDATION|](_ => 0);
    reader.Read(p, |VALIDATION|, 0);
    assert VALIDATION[..|VALIDATION|] == VALIDATION;
    if p[..|VALIDATION|] == VALIDATION {
      return NoOp;
    }
    return Spec(ops, parsed.value.1);
  }
}
