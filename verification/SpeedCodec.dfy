/** The binary codec of the speed daemon: a type byte, then big-endian numbers and length-prefixed lists. */
module SpeedCodec {
  import opened Bytes
  import opened Common

  const MAX_BYTE := 255

  datatype Message =
    | Error(msg: Bytes)
    | Plate(plate: Bytes, timestamp: UInt32)
    | Ticket(plate: Bytes, road: UInt16, mile1: UInt16, timestamp1: UInt32, mile2: UInt16, timestamp2: UInt32,
             speed: UInt16)
    | WantHeartbeat(interval: UInt32)
    | Heartbeat
    | IAmCamera(road: UInt16, mile: UInt16, limit: UInt16)
    | IAmDispatcher(roads: seq<UInt16>)
    | Unknown

  // ---------- fields ----------

  datatype Field = U16(v16: UInt16) | U32(v32: UInt32) | Str(bytes: Bytes) | Arr(values: seq<UInt16>)
  datatype Kind = K16 | K32 | KStr | KArr

  function KindOf(f: Field): Kind {
    match f
    case U16(_) => K16
    case U32(_) => K32
    case Str(_) => KStr
    case Arr(_) => KArr
  }

  function Encode16(v: UInt16): Bytes {
    [v / 256, v % 256]
  }

  function Encode32(v: UInt32): Bytes {
    Encode16(v / 0x1_0000) + Encode16(v % 0x1_0000)
  }

  function Encode16s(vs: seq<UInt16>): Bytes {
    if vs == [] then [] else Encode16(vs[0]) + Encode16s(vs[1..])
  }

  /** Strings and arrays longer than 255 cannot be sent. */
  predicate Sendable(f: Field) {
    match f
    case Str(s) => |s| <= MAX_BYTE
    case Arr(vs) => |vs| <= MAX_BYTE
    case _ => true
  }

  function EncodeField(f: Field): Bytes
    requires Sendable(f)
  {
    match f
    case U16(v) => Encode16(v)
    case U32(v) => Encode32(v)
    case Str(s) => [|s|] + s
    case Arr(vs) => [|vs|] + Encode16s(vs)
  }

  predicate AllSendable(fs: seq<Field>) {
    forall i :: 0 <= i < |fs| ==> Sendable(fs[i])
  }

  function EncodeFields(fs: seq<Field>): Bytes
    requires AllSendable(fs)
  {
    if fs == [] then [] else EncodeField(fs[0]) + EncodeFields(fs[1..])
  }

  function Word(hi: int, lo: int, base: int): int {
    hi * base + lo
  }

  function Decode16(input: Bytes): Option<(UInt16, Bytes)> {
    if |input| < 2 then None else Some((Word(input[0], input[1], 256), input[2..]))
  }

  function Decode32(input: Bytes): Option<(UInt32, Bytes)> {
    if |input| < 4 then None
    else Some((Word(Word(input[0], input[1], 256), Word(input[2], input[3], 256), 0x1_0000), input[4..]))
  }

  function Decode16s(n: nat, input: Bytes): Option<(seq<UInt16>, Bytes)> {
    if n == 0 then Some(([], input))
    else
      match Decode16(input)
      case None => None
      case Some((v, rest)) =>
        match Decode16s(n - 1, rest)
        case None => None
        case Some((vs, rest')) => Some(([v] + vs, rest'))
  }

  function DecodeField(k: Kind, input: Bytes): Option<(Field, Bytes)> {
    match k
    case K16 => (match Decode16(input) case None => None case Some((v, rest)) => Some((U16(v), rest)))
    case K32 => (match Decode32(input) case None => None case Some((v, rest)) => Some((U32(v), rest)))
    case KStr =>
      if input == [] || |input| - 1 < input[0] then None
      else Some((Str(input[1..1 + input[0]]), input[1 + input[0]..]))
    case KArr =>
      if input == [] then None
      else match Decode16s(input[0], input[1..]) case None => None case Some((vs, rest)) => Some((Arr(vs), rest))
  }

  function DecodeFields(ks: seq<Kind>, input: Bytes): Option<(seq<Field>, Bytes)>
    decreases |ks|
  {
    if ks == [] then Some(([], input))
    else
      match DecodeField(ks[0], input)
      case None => None
      case Some((f, rest)) =>
        match DecodeFields(ks[1..], rest)
        case None => None
        case Some((fs, rest')) => Some(([f] + fs, rest'))
  }

  // ---------- messages ----------

  function TypeByte(m: Message): Byte
    requires !m.Unknown?
  {
    match m
    case Error(_) => 0x10
    case Plate(_, _) => 0x20
    case Ticket(_, _, _, _, _, _, _) => 0x21
    case WantHeartbeat(_) => 0x40
    case Heartbeat => 0x41
    case IAmCamera(_, _, _) => 0x80
    case IAmDispatcher(_) => 0x81
  }

  function FieldsOf(m: Message): seq<Field> {
    match m
    case Error(s) => [Str(s)]
    case Plate(p, t) => [Str(p), U32(t)]
    case Ticket(p, r, m1, t1, m2, t2, s) => [Str(p), U16(r), U16(m1), U32(t1), U16(m2), U32(t2), U16(s)]
    case WantHeartbeat(i) => [U32(i)]
    case Heartbeat => []
    case IAmCamera(r, m, l) => [U16(r), U16(m), U16(l)]
    case IAmDispatcher(rs) => [Arr(rs)]
    case Unknown => []
  }

  function KindsOf(t: Byte): Option<seq<Kind>> {
    if t == 0x10 then Some([KStr])
    else if t == 0x20 then Some([KStr, K32])
    else if t == 0x21 then Some([KStr, K16, K16, K32, K16, K32, K16])
    else if t == 0x40 then Some([K32])
    else if t == 0x41 then Some([])
    else if t == 0x80 then Some([K16, K16, K16])
    else if t == 0x81 then Some([KArr])
    else None
  }

  function Build(t: Byte, fs: seq<Field>): Message
    requires KindsOf(t).Some? && Kinds(fs) == KindsOf(t).value
  {
    KindsAt(fs);
    if t == 0x10 then Error(fs[0].bytes)
    else if t == 0x20 then Plate(fs[0].bytes, fs[1].v32)
    else if t == 0x21 then Ticket(fs[0].bytes, fs[1].v16, fs[2].v16, fs[3].v32, fs[4].v16, fs[5].v32, fs[6].v16)
    else if t == 0x40 then WantHeartbeat(fs[0].v32)
    else if t == 0x41 then Heartbeat
    else if t == 0x80 then IAmCamera(fs[0].v16, fs[1].v16, fs[2].v16)
    else IAmDispatcher(fs[0].values)
  }

  function Kinds(fs: seq<Field>): seq<Kind> {
    seq(|fs|, i requires 0 <= i < |fs| => KindOf(fs[i]))
  }

  lemma KindsAt(fs: seq<Field>)
    ensures forall i :: 0 <= i < |fs| ==> Kinds(fs)[i] == KindOf(fs[i])
  {
  }

  predicate Marshals(m: Message) {
    AllSendable(FieldsOf(m))
  }

  function Encode(m: Message): Bytes
    requires Marshals(m)
  {
    if m.Unknown? then [] else [TypeByte(m)] + EncodeFields(FieldsOf(m))
  }

  lemma DecodedKinds(ks: seq<Kind>, input: Bytes)
    ensures var r := DecodeFields(ks, input); r.Some? ==> Kinds(r.value.0) == ks && |r.value.1| <= |input|
    decreases |ks|
  {
    if ks != [] {
      var r := DecodeField(ks[0], input);
      if r.Some? {
        DecodedKind(ks[0], input);
        DecodedKinds(ks[1..], r.value.1);
        var rest := DecodeFields(ks[1..], r.value.1);
        if rest.Some? {
          var fs := [r.value.0] + rest.value.0;
          assert Kinds(fs) == [KindOf(r.value.0)] + Kinds(rest.value.0);
        }
      }
    }
  }

  lemma DecodedKind(k: Kind, input: Bytes)
    ensures var r := DecodeField(k, input); r.Some? ==> KindOf(r.value.0) == k && |r.value.1| <= |input|
  {
    if k.KArr? && input != [] {
      Decoded16sShrinks(input[0], input[1..]);
    }
  }

  lemma Decoded16sShrinks(n: nat, input: Bytes)
    ensures var r := Decode16s(n, input); r.Some? ==> |r.value.1| <= |input|
  {
  }

  /** The message at the front of the input and what follows it; None for a read that ends early. */
  function Unmarshal(input: Bytes): (r: Option<(Message, Bytes)>)
    ensures r.Some? ==> |r.value.1| < |input|
  {
    if input == [] then None
    else
      match KindsOf(input[0])
      case None => Some((Unknown, input[1..]))
      case Some(ks) =>
        DecodedKinds(ks, input[1..]);
        match DecodeFields(ks, input[1..])
        case None => None
        case Some((fs, rest)) => Some((Build(input[0], fs), rest))
  }

  // ---------- the bytes on the wire ----------

  function Big2(a: int, b: int): int {
    256 * a + b
  }

  function Big4(a: int, b: int, c: int, d: int): int {
    0x100_0000 * a + 0x1_0000 * b + 256 * c + d
  }

  /** Two bytes from i on, the high one first. */
  predicate Holds16(out: Bytes, i: nat, v: int) {
    i + 2 <= |out| && v == Big2(out[i], out[i + 1])
  }

  /** Four bytes from i on, the highest first. */
  predicate Holds32(out: Bytes, i: nat, v: int) {
    i + 4 <= |out| && v == Big4(out[i], out[i + 1], out[i + 2], out[i + 3])
  }

  /** A count byte, then the characters. */
  predicate HoldsText(out: Bytes, i: nat, s: Bytes) {
    i + 1 + |s| <= |out| && out[i] == |s| && out[i + 1..i + 1 + |s|] == s
  }

  /** A count byte, then two bytes for each number. */
  predicate HoldsNumbers(out: Bytes, i: nat, vs: seq<UInt16>) {
    i + 1 + 2 * |vs| <= |out| && out[i] == |vs| && forall k :: 0 <= k < |vs| ==> Holds16(out, i + 1 + 2 * k, vs[k])
  }

  /** The format of each message, byte by byte. */
  predicate OnTheWire(m: Message, out: Bytes) {
    match m
    case Error(s) => |out| == 2 + |s| && out[0] == 0x10 && HoldsText(out, 1, s)
    case Plate(p, t) => |out| == 6 + |p| && out[0] == 0x20 && HoldsText(out, 1, p) && Holds32(out, 2 + |p|, t)
    case Ticket(p, r, m1, t1, m2, t2, speed) =>
      var i := 2 + |p|;
      && |out| == i + 16 && out[0] == 0x21 && HoldsText(out, 1, p) && Holds16(out, i, r)
      && Holds16(out, i + 2, m1) && Holds32(out, i + 4, t1) && Holds16(out, i + 8, m2) && Holds32(out, i + 10, t2)
      && Holds16(out, i + 14, speed)
    case WantHeartbeat(t) => |out| == 5 && out[0] == 0x40 && Holds32(out, 1, t)
    case Heartbeat => out == [0x41]
    case IAmCamera(r, mile, limit) =>
      |out| == 7 && out[0] == 0x80 && Holds16(out, 1, r) && Holds16(out, 3, mile) && Holds16(out, 5, limit)
    case IAmDispatcher(rs) => |out| == 2 + 2 * |rs| && out[0] == 0x81 && HoldsNumbers(out, 1, rs)
    case Unknown => out == []
  }

  /** No string and no list is longer than 255. */
  predicate Short(m: Message) {
    match m
    case Error(s) => |s| <= 255
    case Plate(p, _) => |p| <= 255
    case Ticket(p, _, _, _, _, _, _) => |p| <= 255
    case IAmDispatcher(rs) => |rs| <= 255
    case _ => true
  }

  lemma MarshalsIff(m: Message)
    ensures Marshals(m) <==> Short(m)
  {
    var fs := FieldsOf(m);
    assert fs != [] ==> (Sendable(fs[0]) <==> Short(m));
  }

  ghost predicate HoldsField(out: Bytes, i: nat, f: Field) {
    match f
    case U16(v) => Holds16(out, i, v)
    case U32(v) => Holds32(out, i, v)
    case Str(s) => HoldsText(out, i, s)
    case Arr(vs) => HoldsNumbers(out, i, vs)
  }

  ghost function Width(f: Field): nat {
    match f
    case U16(_) => 2
    case U32(_) => 4
    case Str(s) => 1 + |s|
    case Arr(vs) => 1 + 2 * |vs|
  }

  ghost predicate HoldsFields(out: Bytes, i: nat, fs: seq<Field>)
    decreases |fs|
  {
    if fs == [] then i == |out| else HoldsField(out, i, fs[0]) && HoldsFields(out, i + Width(fs[0]), fs[1..])
  }

  lemma {:induction false} Encoded16s(out: Bytes, before: Bytes, vs: seq<UInt16>, after: Bytes)
    requires out == before + Encode16s(vs) + after
    ensures |Encode16s(vs)| == 2 * |vs|
    ensures forall k :: 0 <= k < |vs| ==> Holds16(out, |before| + 2 * k, vs[k])
    decreases |vs|
  {
    if vs != [] {
      var head := before + Encode16(vs[0]);
      ConcatAssoc(before, Encode16(vs[0]), Encode16s(vs[1..]));
      Encoded16s(out, head, vs[1..], after);
      forall k | 0 <= k < |vs| ensures Holds16(out, |before| + 2 * k, vs[k]) {
        if k > 0 {
          assert vs[k] == vs[1..][k - 1] && |before| + 2 * k == |head| + 2 * (k - 1);
        }
      }
    }
  }

  lemma {:induction false} Encoded32(v: UInt32)
    ensures |Encode32(v)| == 4 && Holds32(Encode32(v), 0, v)
  {
    var hi, lo := v / 0x1_0000, v % 0x1_0000;
    assert Encode32(v) == [hi / 256, hi % 256, lo / 256, lo % 256];
  }

  lemma {:induction false} EncodedWord(out: Bytes, before: Bytes, v: UInt32, after: Bytes)
    requires out == before + Encode32(v) + after
    ensures Holds32(out, |before|, v)
  {
    Encoded32(v);
    assert forall k :: 0 <= k < 4 ==> out[|before| + k] == Encode32(v)[k];
  }

  lemma {:induction false} EncodedText(out: Bytes, before: Bytes, s: Bytes, after: Bytes)
    requires |s| <= MAX_BYTE && out == before + ([|s|] + s) + after
    ensures HoldsText(out, |before|, s)
  {
    assert out[|before| + 1..|before| + 1 + |s|] == s;
  }

  lemma {:induction false} EncodedNumbers(out: Bytes, before: Bytes, vs: seq<UInt16>, after: Bytes)
    requires |vs| <= MAX_BYTE && out == before + ([|vs|] + Encode16s(vs)) + after
    ensures |Encode16s(vs)| == 2 * |vs| && HoldsNumbers(out, |before|, vs)
  {
    ConcatAssoc(before, [|vs|], Encode16s(vs));
    Encoded16s(out, before + [|vs|], vs, after);
    assert out[|before|] == |vs|;
  }

  lemma {:induction false} EncodedField(out: Bytes, before: Bytes, f: Field, after: Bytes)
    requires Sendable(f) && out == before + EncodeField(f) + after
    ensures |EncodeField(f)| == Width(f) && HoldsField(out, |before|, f)
  {
    match f {
      case U16(v) => assert out[|before|] == v / 256 && out[|before| + 1] == v % 256;
      case U32(v) =>
        Encoded32(v);
        EncodedWord(out, before, v, after);
      case Str(s) => EncodedText(out, before, s, after);
      case Arr(vs) => EncodedNumbers(out, before, vs, after);
    }
  }

  lemma {:induction false} EncodedFields(out: Bytes, before: Bytes, fs: seq<Field>)
    requires AllSendable(fs) && out == before + EncodeFields(fs)
    ensures HoldsFields(out, |before|, fs)
    decreases |fs|
  {
    if fs == [] {
      assert out == before;
    } else {
      var e := EncodeField(fs[0]);
      FieldsFirst(out, before, fs, e);
      EncodedField(out, before, fs[0], EncodeFields(fs[1..]));
      EncodedFields(out, before + e, fs[1..]);
      assert |before + e| == |before| + Width(fs[0]);
    }
  }

  lemma {:induction false} FieldsFirst(out: Bytes, before: Bytes, fs: seq<Field>, e: Bytes)
    requires fs != [] && AllSendable(fs) && out == before + EncodeFields(fs) && e == EncodeField(fs[0])
    ensures AllSendable(fs[1..]) && out == before + e + EncodeFields(fs[1..])
  {
    ConcatAssoc(before, e, EncodeFields(fs[1..]));
  }

  lemma {:induction false} HoldsFirst(out: Bytes, i: nat, f: Field, fs: seq<Field>)
    requires HoldsFields(out, i, [f] + fs)
    ensures HoldsField(out, i, f) && HoldsFields(out, i + Width(f), fs)
  {
    assert ([f] + fs)[1..] == fs;
  }

  lemma {:induction false} TicketOnTheWire(m: Message, out: Bytes)
    requires m.Ticket? && Short(m) && out != [] && out[0] == 0x21 && HoldsFields(out, 1, FieldsOf(m))
    ensures OnTheWire(m, out)
  {
    var i := 2 + |m.plate|;
    var f6 := [U16(m.speed)];
    var f5 := [U32(m.timestamp2)] + f6;
    var f4 := [U16(m.mile2)] + f5;
    var f3 := [U32(m.timestamp1)] + f4;
    var f2 := [U16(m.mile1)] + f3;
    var f1 := [U16(m.road)] + f2;
    assert FieldsOf(m) == [Str(m.plate)] + f1;
    HoldsFirst(out, 1, Str(m.plate), f1);
    HoldsFirst(out, i, U16(m.road), f2);
    HoldsFirst(out, i + 2, U16(m.mile1), f3);
    HoldsFirst(out, i + 4, U32(m.timestamp1), f4);
    HoldsFirst(out, i + 8, U16(m.mile2), f5);
    HoldsFirst(out, i + 10, U32(m.timestamp2), f6);
    assert f6 == [U16(m.speed)] + [];
    HoldsFirst(out, i + 14, U16(m.speed), []);
  }

  lemma {:induction false} CameraOnTheWire(m: Message, out: Bytes)
    requires m.IAmCamera? && out != [] && out[0] == 0x80 && HoldsFields(out, 1, FieldsOf(m))
    ensures OnTheWire(m, out)
  {
    var f2 := [U16(m.limit)];
    var f1 := [U16(m.mile)] + f2;
    assert FieldsOf(m) == [U16(m.road)] + f1;
    HoldsFirst(out, 1, U16(m.road), f1);
    HoldsFirst(out, 3, U16(m.mile), f2);
    assert f2 == [U16(m.limit)] + [];
    HoldsFirst(out, 5, U16(m.limit), []);
  }

  lemma {:induction false} PlateOnTheWire(m: Message, out: Bytes)
    requires m.Plate? && out != [] && out[0] == 0x20 && HoldsFields(out, 1, FieldsOf(m))
    ensures OnTheWire(m, out)
  {
    var f1 := [U32(m.timestamp)];
    assert FieldsOf(m) == [Str(m.plate)] + f1;
    HoldsFirst(out, 1, Str(m.plate), f1);
    assert f1 == [U32(m.timestamp)] + [];
    HoldsFirst(out, 2 + |m.plate|, U32(m.timestamp), []);
  }

  lemma {:induction false} OneFieldOnTheWire(m: Message, f: Field, out: Bytes)
    requires m.Error? || m.WantHeartbeat? || m.IAmDispatcher?
    requires FieldsOf(m) == [f] && out != [] && out[0] == TypeByte(m) && HoldsFields(out, 1, [f])
    ensures OnTheWire(m, out)
  {
    assert [f] == [f] + [];
    HoldsFirst(out, 1, f, []);
  }

  /** Every message is written in its format. */
  lemma {:induction false} WireFormat(m: Message)
    requires Marshals(m)
    ensures OnTheWire(m, Encode(m))
  {
    if !m.Unknown? {
      var out := Encode(m);
      MarshalsIff(m);
      EncodedFields(out, [TypeByte(m)], FieldsOf(m));
      match m {
        case Error(s) => OneFieldOnTheWire(m, Str(s), out);
        case Plate(_, _) => PlateOnTheWire(m, out);
        case Ticket(_, _, _, _, _, _, _) => TicketOnTheWire(m, out);
        case WantHeartbeat(t) => OneFieldOnTheWire(m, U32(t), out);
        case Heartbeat =>
        case IAmCamera(_, _, _) => CameraOnTheWire(m, out);
        case IAmDispatcher(rs) => OneFieldOnTheWire(m, Arr(rs), out);
      }
    }
  }

  // ---------- round trips ----------

  lemma {:induction false} Decode16sEncoded(vs: seq<UInt16>, rest: Bytes)
    ensures Decode16s(|vs|, Encode16s(vs) + rest) == Some((vs, rest))
  {
    if vs == [] {
      assert [] + rest == rest;
    } else {
      var e, more := Encode16(vs[0]), Encode16s(vs[1..]) + rest;
      ConcatAssoc(e, Encode16s(vs[1..]), rest);
      assert (e + more)[2..] == more;
      Decode16sEncoded(vs[1..], rest);
      assert [vs[0]] + vs[1..] == vs;
    }
  }

  lemma Decode32Encoded(v: UInt32, rest: Bytes)
    ensures Decode32(Encode32(v) + rest) == Some((v, rest))
  {
    var hi, lo := v / 0x1_0000, v % 0x1_0000;
    var e := [hi / 256, hi % 256, lo / 256, lo % 256];
    assert Encode32(v) == e;
    assert (e + rest)[4..] == rest;
  }

  lemma FieldRoundTrip(f: Field, rest: Bytes)
    requires Sendable(f)
    ensures DecodeField(KindOf(f), EncodeField(f) + rest) == Some((f, rest))
  {
    match f {
      case U16(v) => assert (Encode16(v) + rest)[2..] == rest;
      case U32(v) => Decode32Encoded(v, rest);
      case Str(s) =>
        var e := [|s|] + s + rest;
        assert e[1..1 + |s|] == s && e[1 + |s|..] == rest;
      case Arr(vs) =>
        var e := [|vs|] + Encode16s(vs) + rest;
        assert e[1..] == Encode16s(vs) + rest;
        Decode16sEncoded(vs, rest);
    }
  }

  lemma {:induction false} FieldsRoundTrip(fs: seq<Field>, rest: Bytes)
    requires AllSendable(fs)
    ensures DecodeFields(Kinds(fs), EncodeFields(fs) + rest) == Some((fs, rest))
  {
    if fs == [] {
      assert [] + rest == rest;
    } else {
      var tail := EncodeFields(fs[1..]) + rest;
      ConcatAssoc(EncodeField(fs[0]), EncodeFields(fs[1..]), rest);
      FieldRoundTrip(fs[0], tail);
      FieldsRoundTrip(fs[1..], rest);
      assert Kinds(fs)[0] == KindOf(fs[0]);
      assert Kinds(fs)[1..] == Kinds(fs[1..]);
      assert [fs[0]] + fs[1..] == fs;
    }
  }

  lemma BuildFields(m: Message)
    requires !m.Unknown?
    ensures KindsOf(TypeByte(m)) == Some(Kinds(FieldsOf(m))) && Build(TypeByte(m), FieldsOf(m)) == m
  {
    KindsAt(FieldsOf(m));
    assert Kinds(FieldsOf(m)) == KindsOf(TypeByte(m)).value;
  }

  /** A message is self-delimiting: decoding gives it back and leaves exactly the bytes that follow. */
  lemma {:induction false} RoundTrip(m: Message, rest: Bytes)
    requires !m.Unknown? && Marshals(m)
    ensures Unmarshal(Encode(m) + rest) == Some((m, rest))
  {
    var t, body := TypeByte(m), EncodeFields(FieldsOf(m));
    BuildFields(m);
    FieldsRoundTrip(FieldsOf(m), rest);
    UnmarshalKnown(t, body + rest, FieldsOf(m), rest);
    ConcatAssoc([t], body, rest);
  }

  lemma {:induction false} UnmarshalKnown(t: Byte, input: Bytes, fs: seq<Field>, rest: Bytes)
    requires KindsOf(t) == Some(Kinds(fs)) && DecodeFields(Kinds(fs), input) == Some((fs, rest))
    ensures Unmarshal([t] + input) == Some((Build(t, fs), rest))
  {
    assert ([t] + input)[1..] == input;
  }

  // ---------- what is read is what was written ----------

  lemma {:induction false} Read16(input: Bytes)
    requires |input| >= 2
    ensures input == Encode16(Decode16(input).value.0) + Decode16(input).value.1
  {
    var v := Decode16(input).value.0;
    assert v / 256 == input[0] && v % 256 == input[1];
    assert input == [input[0], input[1]] + input[2..];
  }

  lemma {:induction false} Halves(a: Byte, b: Byte, c: Byte, d: Byte)
    ensures var v := Word(Word(a, b, 256), Word(c, d, 256), 0x1_0000);
      v / 0x1_0000 == Word(a, b, 256) && v % 0x1_0000 == Word(c, d, 256)
  {
  }

  lemma {:induction false} Read32(input: Bytes)
    requires |input| >= 4
    ensures input == Encode32(Decode32(input).value.0) + Decode32(input).value.1
  {
    Halves(input[0], input[1], input[2], input[3]);
    Read16(input);
    Read16(input[2..]);
    assert input[2..][2..] == input[4..];
    ConcatAssoc(Encode16(Word(input[0], input[1], 256)), Encode16(Word(input[2], input[3], 256)), input[4..]);
  }

  lemma {:induction false} Read16s(n: nat, input: Bytes)
    requires Decode16s(n, input).Some?
    ensures var (vs, rest) := Decode16s(n, input).value; |vs| == n && input == Encode16s(vs) + rest
  {
    if n == 0 {
      assert [] + input == input;
    } else {
      Read16(input);
      Read16s(n - 1, input[2..]);
      var (vs, rest) := Decode16s(n, input).value;
      ConcatAssoc(Encode16(vs[0]), Encode16s(vs[1..]), rest);
    }
  }

  lemma {:induction false} ReadField(k: Kind, input: Bytes)
    requires DecodeField(k, input).Some?
    ensures var (f, rest) := DecodeField(k, input).value;
      KindOf(f) == k && Sendable(f) && input == EncodeField(f) + rest
  {
    match k {
      case K16 => Read16(input);
      case K32 => Read32(input);
      case KStr =>
        var n: int := input[0];
        assert input == [input[0]] + input[1..1 + n] + input[1 + n..];
      case KArr =>
        Read16s(input[0], input[1..]);
        var (vs, rest) := Decode16s(input[0], input[1..]).value;
        assert input == [input[0]] + input[1..];
        ConcatAssoc([input[0]], Encode16s(vs), rest);
    }
  }

  lemma {:induction false} ReadFields(ks: seq<Kind>, input: Bytes)
    requires DecodeFields(ks, input).Some?
    ensures var (fs, rest) := DecodeFields(ks, input).value;
      AllSendable(fs) && Kinds(fs) == ks && input == EncodeFields(fs) + rest
    decreases |ks|
  {
    if ks == [] {
      assert [] + input == input;
    } else {
      ReadField(ks[0], input);
      var (f, rest) := DecodeField(ks[0], input).value;
      ReadFields(ks[1..], rest);
      var (fs, rest') := DecodeFields(ks[1..], rest).value;
      FieldsCons(f, fs);
      assert ks == [ks[0]] + ks[1..];
      ConcatAssoc(EncodeField(f), EncodeFields(fs), rest');
    }
  }

  lemma {:induction false} FieldsCons(f: Field, fs: seq<Field>)
    requires Sendable(f) && AllSendable(fs)
    ensures AllSendable([f] + fs) && EncodeFields([f] + fs) == EncodeField(f) + EncodeFields(fs)
    ensures Kinds([f] + fs) == [KindOf(f)] + Kinds(fs)
  {
    assert ([f] + fs)[1..] == fs;
  }

  lemma {:induction false} BuiltFields(t: Byte, fs: seq<Field>)
    requires KindsOf(t).Some? && Kinds(fs) == KindsOf(t).value
    ensures var m := Build(t, fs); !m.Unknown? && TypeByte(m) == t && FieldsOf(m) == fs
  {
    KindsAt(fs);
    assert |fs| == |KindsOf(t).value|;
  }

  /** A message is read exactly where its bytes are, and what follows them is left. */
  lemma {:induction false} ReadIff(m: Message, input: Bytes, rest: Bytes)
    requires !m.Unknown?
    ensures Unmarshal(input) == Some((m, rest)) <==> Marshals(m) && input == Encode(m) + rest
  {
    if Marshals(m) && input == Encode(m) + rest {
      RoundTrip(m, rest);
    }
    if Unmarshal(input) == Some((m, rest)) {
      var ks := KindsOf(input[0]).value;
      ReadFields(ks, input[1..]);
      var fs := DecodeFields(ks, input[1..]).value.0;
      BuiltFields(input[0], fs);
      ConcatAssoc([input[0]], EncodeFields(fs), rest);
      assert input == [input[0]] + input[1..];
    }
  }

  /** Any other type byte gives an unknown message at once. */
  lemma {:induction false} UnknownIff(input: Bytes, rest: Bytes)
    ensures Unmarshal(input) == Some((Unknown, rest)) <==>
      input != [] && input[0] !in {0x10, 0x20, 0x21, 0x40, 0x41, 0x80, 0x81} && rest == input[1..]
  {
    if input != [] && KindsOf(input[0]).Some? && Unmarshal(input).Some? {
      DecodedKinds(KindsOf(input[0]).value, input[1..]);
      BuiltFields(input[0], DecodeFields(KindsOf(input[0]).value, input[1..]).value.0);
    }
  }

  // ---------- no message is a prefix of another ----------

  lemma {:induction false} Decode16sMore(n: nat, input: Bytes, more: Bytes)
    requires Decode16s(n, input).Some?
    ensures var (vs, rest) := Decode16s(n, input).value; Decode16s(n, input + more) == Some((vs, rest + more))
  {
    if n > 0 {
      assert (input + more)[2..] == input[2..] + more;
      Decode16sMore(n - 1, input[2..], more);
    }
  }

  lemma DecodeFieldMore(k: Kind, input: Bytes, more: Bytes)
    requires DecodeField(k, input).Some?
    ensures var (f, rest) := DecodeField(k, input).value; DecodeField(k, input + more) == Some((f, rest + more))
  {
    match k {
      case K16 => SplitMore(input, 2, more);
      case K32 => SplitMore(input, 4, more);
      case KStr =>
        var n: int := input[0];
        SplitMore(input, n + 1, more);
        assert (input + more)[1..1 + n] == input[1..1 + n];
      case KArr =>
        SplitMore(input, 1, more);
        Decode16sMore(input[0], input[1..], more);
    }
  }

  lemma SplitMore(input: Bytes, n: nat, more: Bytes)
    requires n <= |input|
    ensures (input + more)[n..] == input[n..] + more && (input + more)[..n] == input[..n]
  {
  }

  lemma {:induction false} DecodeFieldsMore(ks: seq<Kind>, input: Bytes, more: Bytes)
    requires DecodeFields(ks, input).Some?
    ensures var (fs, rest) := DecodeFields(ks, input).value; DecodeFields(ks, input + more) == Some((fs, rest + more))
    decreases |ks|
  {
    if ks != [] {
      DecodeFieldMore(ks[0], input, more);
      DecodeFieldsMore(ks[1..], DecodeField(ks[0], input).value.1, more);
    }
  }

  /** More input never changes a message that has been read. */
  lemma UnmarshalMore(input: Bytes, more: Bytes)
    requires Unmarshal(input).Some?
    ensures var (m, rest) := Unmarshal(input).value; Unmarshal(input + more) == Some((m, rest + more))
  {
    assert (input + more)[1..] == input[1..] + more;
    var ks := KindsOf(input[0]);
    if ks.Some? {
      DecodeFieldsMore(ks.value, input[1..], more);
    }
  }

  /** A message cut short is never taken for a message. */
  lemma TruncatedFails(m: Message, n: nat)
    requires !m.Unknown? && Marshals(m) && n < |Encode(m)|
    ensures Unmarshal(Encode(m)[..n]) == None
  {
    var e := Encode(m);
    if Unmarshal(e[..n]).Some? {
      assert e[..n] + e[n..] == e;
      assert e + [] == e;
      RoundTrip(m, []);
      UnmarshalMore(e[..n], e[n..]);
      assert false;
    }
  }

  // ---------- streams of messages ----------

  ghost predicate AllMarshal(ms: seq<Message>) {
    forall i :: 0 <= i < |ms| ==> !ms[i].Unknown? && Marshals(ms[i])
  }

  ghost function EncodeAll(ms: seq<Message>): Bytes
    requires AllMarshal(ms)
  {
    if ms == [] then [] else Encode(ms[0]) + EncodeAll(ms[1..])
  }

  /** The session loop: one message after the other until a read fails. */
  function ParseAll(input: Bytes): seq<Message>
    decreases |input|
  {
    match Unmarshal(input)
    case None => []
    case Some((m, rest)) => [m] + ParseAll(rest)
  }

  lemma {:induction false} ParseFirst(m: Message, rest: Bytes)
    requires !m.Unknown? && Marshals(m)
    ensures ParseAll(Encode(m) + rest) == [m] + ParseAll(rest)
  {
    RoundTrip(m, rest);
  }

  /** A stream of messages parses back to the messages. */
  lemma {:induction false} StreamRoundTrip(ms: seq<Message>)
    requires AllMarshal(ms)
    ensures ParseAll(EncodeAll(ms)) == ms
    decreases |ms|
  {
    if ms != [] {
      ParseFirst(ms[0], EncodeAll(ms[1..]));
      StreamRoundTrip(ms[1..]);
      assert [ms[0]] + ms[1..] == ms;
    }
  }

  // ---------- the loops ----------

  lemma {:induction false} EncodeSnoc(fs: seq<Field>, f: Field)
    requires AllSendable(fs) && Sendable(f)
    ensures EncodeFields(fs + [f]) == EncodeFields(fs) + EncodeField(f)
  {
    if fs == [] {
      assert fs + [f] == [f] && [f][1..] == [];
    } else {
      assert (fs + [f])[1..] == fs[1..] + [f];
      EncodeSnoc(fs[1..], f);
      ConcatAssoc(EncodeField(fs[0]), EncodeFields(fs[1..]), EncodeField(f));
    }
  }

  lemma {:induction false} Encode16sSnoc(vs: seq<UInt16>, v: UInt16)
    ensures Encode16s(vs + [v]) == Encode16s(vs) + Encode16(v)
  {
    if vs == [] {
      assert vs + [v] == [v] && [v][1..] == [];
    } else {
      assert (vs + [v])[1..] == vs[1..] + [v];
      Encode16sSnoc(vs[1..], v);
      ConcatAssoc(Encode16(vs[0]), Encode16s(vs[1..]), Encode16(v));
    }
  }

  method WriteArray(vs: seq<UInt16>) returns (out: Bytes)
    requires |vs| <= MAX_BYTE
    ensures out == EncodeField(Arr(vs)) && |out| == 1 + 2 * |vs| && HoldsNumbers(out, 0, vs)
  {
    out := [];
    for i := 0 to |vs|
      invariant out == Encode16s(vs[..i])
    {
      Encode16sSnoc(vs[..i], vs[i]);
      assert vs[..i] + [vs[i]] == vs[..i + 1];
      out := out + Encode16(vs[i]);
    }
    assert vs[..|vs|] == vs;
    out := [|vs|] + out;
    assert out == [] + out + [];
    EncodedField(out, [], Arr(vs), []);
  }

  /** Writes field by field; on a field that is too long it stops, with what was written left behind. */
  method ConstructPacketData(t: Byte, fs: seq<Field>) returns (out: Bytes, ok: bool)
    ensures ok <==> AllSendable(fs)
    ensures ok ==> out == [t] + EncodeFields(fs) && HoldsFields(out, 1, fs)
    ensures !ok ==>
      exists k :: 0 <= k < |fs| && AllSendable(fs[..k]) && !Sendable(fs[k]) && out == [t] + EncodeFields(fs[..k])
  {
    out := [];
    for k := 0 to |fs|
      invariant AllSendable(fs[..k]) && out == EncodeFields(fs[..k])
    {
      if !Sendable(fs[k]) {
        out := [t] + out;
        return out, false;
      }
      EncodeSnoc(fs[..k], fs[k]);
      assert fs[..k] + [fs[k]] == fs[..k + 1];
      var written;
      if fs[k].Arr? {
        written := WriteArray(fs[k].values);
      } else {
        written := EncodeField(fs[k]);
      }
      out := out + written;
    }
    assert fs[..|fs|] == fs;
    out := [t] + out;
    EncodedFields(out, [t], fs);
    return out, true;
  }

  method Marshal(m: Message) returns (out: Bytes, ok: bool)
    ensures ok <==> Short(m)
    ensures ok ==> OnTheWire(m, out) && Marshals(m) && out == Encode(m)
  {
    MarshalsIff(m);
    if Marshals(m) {
      WireFormat(m);
    }
    if m.Unknown? {
      return [], true;
    }
    out, ok := ConstructPacketData(TypeByte(m), FieldsOf(m));
  }

  ghost function After(done: seq<Field>, r: Option<(seq<Field>, Bytes)>): Option<(seq<Field>, Bytes)> {
    match r
    case None => None
    case Some((fs, rest)) => Some((done + fs, rest))
  }

  lemma DecodeOne(done: seq<Field>, ks: seq<Kind>, input: Bytes)
    requires ks != []
    ensures After(done, DecodeFields(ks, input)) ==
      match DecodeField(ks[0], input)
      case None => None
      case Some((f, rest)) => After(done + [f], DecodeFields(ks[1..], rest))
  {
    var r := DecodeField(ks[0], input);
    if r.Some? {
      var rest := DecodeFields(ks[1..], r.value.1);
      if rest.Some? {
        ConcatAssoc(done, [r.value.0], rest.value.0);
      }
    }
  }

  lemma {:induction false} FieldsRead(ks: seq<Kind>, input: Bytes)
    requires DecodeFields(ks, input).Some?
    ensures var (fs, rest) := DecodeFields(ks, input).value;
      Kinds(fs) == ks && |rest| <= |input| && HoldsFields(input[..|input| - |rest|], 0, fs)
  {
    ReadFields(ks, input);
    var (fs, rest) := DecodeFields(ks, input).value;
    var e := EncodeFields(fs);
    assert input[..|input| - |rest|] == e && e == [] + e;
    EncodedFields(e, [], fs);
  }

  /** Reads field by field; an early end of the input is an error. */
  method ExtractPacketData(ks: seq<Kind>, input: Bytes) returns (r: Option<(seq<Field>, Bytes)>)
    ensures r == DecodeFields(ks, input)
    ensures r.Some? ==>
      var (fs, rest) := r.value;
      Kinds(fs) == ks && |rest| <= |input| && HoldsFields(input[..|input| - |rest|], 0, fs)
  {
    if DecodeFields(ks, input).Some? {
      FieldsRead(ks, input);
    }
    var todo, done, rest := ks, [], input;
    ghost var result := DecodeFields(ks, input);
    if result.Some? {
      assert [] + result.value.0 == result.value.0;
    }
    while todo != []
      invariant After(done, DecodeFields(todo, rest)) == result
      decreases |todo|
    {
      DecodeOne(done, todo, rest);
      var f := DecodeField(todo[0], rest);
      if f.None? {
        return None;
      }
      done, todo, rest := done + [f.value.0], todo[1..], f.value.1;
    }
    assert done + [] == done;
    return Some((done, rest));
  }
}
