/**
 * Which datagrams the LRCP decoder takes, and for which messages: a grammar that does not mention the
 * decoder, and the proof that the decoder accepts exactly its sentences.
 */
module LrcpGrammar {
  import opened Bytes
  import opened Common
  import opened LrcpCodec

  // ---------- the grammar ----------

  function Zeros(z: nat): Bytes {
    if z == 0 then [] else Zeros(z - 1) + Text("0")
  }

  predicate Signed(a: Bytes, v: int, sign: Bytes, z: nat) {
    && ((sign == [] && v >= 0) || (sign == Text("+") && v >= 0) || (sign == Text("-") && v <= 0))
    && a == sign + (Zeros(z) + FormatInt(Abs(v)))
  }

  /** A text of the number v: perhaps a sign, perhaps zeros in front, and its decimal form. */
  ghost predicate NumberText(a: Bytes, v: int) {
    exists sign, z :: Signed(a, v, sign, z)
  }

  /** No slash in it can end it, and its last byte does not hide the slash that follows. */
  predicate FieldText(e: Bytes) {
    && (forall j :: 0 <= j < |e| && e[j] == SLASH ==> j > 0 && e[j - 1] == BACKSLASH)
    && (e != [] ==> e[|e| - 1] != BACKSLASH)
  }

  /** The datagram is this message, each field with its closing slash and nothing after the last. */
  ghost predicate Says(raw: Bytes, m: Message) {
    match m
    case Connect(s) => exists a :: NumberText(a, s) && raw == Text("/connect/") + (a + Text("/"))
    case Close(s) => exists a :: NumberText(a, s) && raw == Text("/close/") + (a + Text("/"))
    case Ack(s, n) =>
      exists a, b :: NumberText(a, s) && NumberText(b, n) && raw == Text("/ack/") + (a + Text("/") + (b + Text("/")))
    case Data(s, p, d) =>
      exists a, b, e :: NumberText(a, s) && NumberText(b, p) && FieldText(e) && d == Unescape(None, e)
        && raw == Text("/data/") + (a + Text("/") + (b + Text("/") + (e + Text("/"))))
  }

  // ---------- numbers ----------

  lemma {:induction false} ParsedAreDigits(s: Bytes)
    requires ParseDigits(s).Some?
    ensures s != [] && AllDigits(s)
  {
    if |s| > 1 {
      ParsedAreDigits(s[..|s| - 1]);
      assert s == s[..|s| - 1] + [s[|s| - 1]];
    }
  }

  lemma {:induction false} ParseSnoc(s: Bytes, b: Byte)
    requires s != [] && ParseDigits(s).Some? && IsDigit(b)
    ensures ParseDigits(s + [b]) == Some(10 * ParseDigits(s).value + (b - ZERO))
  {
    assert (s + [b])[..|s|] == s;
  }

  lemma {:induction false} ZerosParse(z: nat, n: nat)
    ensures ParseDigits(Zeros(z) + Decimal(n)) == Some(n)
    decreases n, z
  {
    if n >= 10 {
      ZerosParse(z, n / 10);
      DigitParses(z, n / 10, ZERO + n % 10);
    } else if z == 0 {
      assert [] + [ZERO + n] == [ZERO + n];
    } else {
      ZerosParse(z - 1, 0);
      OneMoreZero(z - 1);
      ParseSnoc(Zeros(z), ZERO + n);
    }
  }

  lemma {:induction false} DigitParses(z: nat, v: nat, b: Byte)
    requires v > 0 && IsDigit(b) && ParseDigits(Zeros(z) + Decimal(v)) == Some(v)
    ensures ParseDigits(Zeros(z) + Decimal(10 * v + (b - ZERO))) == Some(10 * v + (b - ZERO))
  {
    NextDigit(v, b);
    ConcatAssoc(Zeros(z), Decimal(v), [b]);
    ParseSnoc(Zeros(z) + Decimal(v), b);
  }

  lemma {:induction false} OneMoreZero(z: nat)
    ensures Zeros(z) + Decimal(0) == Zeros(z + 1)
  {
    assert Text("0") == Decimal(0);
  }

  lemma {:induction false} DigitsParsed(s: Bytes) returns (z: nat)
    requires ParseDigits(s).Some?
    ensures s == Zeros(z) + Decimal(ParseDigits(s).value)
  {
    if |s| == 1 {
      z := 0;
      assert [] + s == s;
    } else {
      var front, b := s[..|s| - 1], s[|s| - 1];
      var k := DigitsParsed(front);
      assert s == front + [b];
      z := DigitAdded(front, ParseDigits(front).value, k, b);
    }
  }

  lemma {:induction false} DigitAdded(front: Bytes, v: nat, z: nat, b: Byte) returns (z': nat)
    requires front == Zeros(z) + Decimal(v) && IsDigit(b)
    ensures front + [b] == Zeros(z') + Decimal(10 * v + (b - ZERO))
  {
    if v == 0 {
      OneMoreZero(z);
      z' := z + 1;
    } else {
      NextDigit(v, b);
      ConcatAssoc(Zeros(z), Decimal(v), [b]);
      z' := z;
    }
  }

  lemma {:induction false} NextDigit(v: nat, b: Byte)
    requires v > 0 && IsDigit(b)
    ensures Decimal(10 * v + (b - ZERO)) == Decimal(v) + [b]
  {
    var n := 10 * v + (b - ZERO);
    assert n / 10 == v && n % 10 == b - ZERO;
  }

  lemma {:induction false} SignsAre()
    ensures Text("+") == [PLUS] && Text("-") == [MINUS]
  {
  }

  /** The parser reads the texts of a 32-bit number as that number, and reads nothing else. */
  lemma {:induction false} NumberIff(a: Bytes, v: Int32)
    ensures ParseInt32(a) == Some(v) <==> NumberText(a, v)
  {
    if ParseInt32(a) == Some(v) {
      ParsedIsNumber(a, v);
    }
    if NumberText(a, v) {
      var sign, z :| Signed(a, v, sign, z);
      NumberParses(a, v, sign, z);
    }
  }

  lemma {:induction false} ParsedIsNumber(a: Bytes, v: Int32)
    requires ParseInt32(a) == Some(v)
    ensures NumberText(a, v)
  {
    SignsAre();
    var signed := a[0] == MINUS || a[0] == PLUS;
    var sign, digits := if signed then [a[0]] else [], if signed then a[1..] else a;
    var z := DigitsParsed(digits);
    assert a == sign + digits;
    assert Signed(a, v, sign, z);
  }

  lemma {:induction false} NumberParses(a: Bytes, v: Int32, sign: Bytes, z: nat)
    requires Signed(a, v, sign, z)
    ensures ParseInt32(a) == Some(v)
  {
    ZerosParse(z, Abs(v));
    SignParses(a, v, sign, Zeros(z) + FormatInt(Abs(v)));
  }

  lemma {:induction false} SignParses(a: Bytes, v: Int32, sign: Bytes, digits: Bytes)
    requires (sign == [] && v >= 0) || (sign == Text("+") && v >= 0) || (sign == Text("-") && v <= 0)
    requires a == sign + digits && ParseDigits(digits) == Some(Abs(v))
    ensures ParseInt32(a) == Some(v)
  {
    SignsAre();
    ParsedAreDigits(digits);
    assert IsDigit(digits[0]);
    assert a[|sign|..] == digits;
  }

  // ---------- fields ----------

  lemma {:induction false} NumberIsField(a: Bytes)
    requires ParseInt32(a).Some?
    ensures FieldText(a)
  {
    var digits := if a[0] == MINUS || a[0] == PLUS then a[1..] else a;
    ParsedAreDigits(digits);
    assert a[|a| - 1] == digits[|digits| - 1];
    forall j | 0 <= j < |a| ensures a[j] != SLASH {
      assert j > 0 ==> (if |digits| == |a| then IsDigit(digits[j]) else IsDigit(digits[j - 1]));
    }
  }

  lemma {:induction false} FirstSlash(buf: Bytes, i: nat)
    requires i <= |buf|
    ensures var k := NextSlashFrom(buf, i);
      && (forall j :: i <= j < (if k == -1 then |buf| else k) ==> !Delimiter(buf, j))
      && (k >= 0 ==> Delimiter(buf, k))
    decreases |buf| - i
  {
    if i < |buf| && !Delimiter(buf, i) {
      FirstSlash(buf, i + 1);
    }
  }

  /** The next slash of a buffer is the one after a field text. */
  lemma {:induction false} FieldFound(e: Bytes, rest: Bytes)
    requires FieldText(e)
    ensures NextSlashFrom(e + [SLASH] + rest, 0) == |e|
  {
    var buf := e + [SLASH] + rest;
    forall j | 0 <= j < |e| ensures !Delimiter(buf, j) {
      assert buf[j] == e[j] && (j > 0 ==> buf[j - 1] == e[j - 1]);
    }
    NextSlashSkips(buf, 0, |e|);
  }

  lemma {:induction false} FieldCut(buf: Bytes)
    requires NextSlashFrom(buf, 0) >= 0
    ensures var k := NextSlashFrom(buf, 0); FieldText(buf[..k]) && buf == buf[..k] + [SLASH] + buf[k + 1..]
  {
    FirstSlash(buf, 0);
    var k := NextSlashFrom(buf, 0);
    forall j | 0 <= j < k && buf[..k][j] == SLASH ensures j > 0 && buf[..k][j - 1] == BACKSLASH {
      assert !Delimiter(buf, j);
    }
  }

  /** A field at the front of a buffer, and what follows its slash. */
  ghost predicate Front(kind: Kind, buf: Bytes, e: Bytes, f: Field, rest: Bytes) {
    FieldText(e) && UnpackField(kind, e) == Some(f) && buf == e + [SLASH] + rest
  }

  lemma {:induction false} UnpackFront(kind: Kind, kinds: seq<Kind>, buf: Bytes, e: Bytes, f: Field, rest: Bytes,
                                       fs: seq<Field>)
    requires Front(kind, buf, e, f, rest) && Unpack(kinds, rest) == Some(fs)
    ensures Unpack([kind] + kinds, buf) == Some([f] + fs)
  {
    FieldFound(e, rest);
    assert buf[..|e|] == e && buf[|e| + 1..] == rest;
    assert ([kind] + kinds)[1..] == kinds;
  }

  lemma {:induction false} FrontUnpacked(kind: Kind, kinds: seq<Kind>, buf: Bytes) returns (e: Bytes, rest: Bytes)
    requires Unpack([kind] + kinds, buf).Some?
    ensures Unpack(kinds, rest).Some? && UnpackField(kind, e).Some?
    ensures Front(kind, buf, e, UnpackField(kind, e).value, rest)
    ensures Unpack([kind] + kinds, buf).value == [UnpackField(kind, e).value] + Unpack(kinds, rest).value
  {
    assert ([kind] + kinds)[1..] == kinds;
    var k := NextSlashFrom(buf, 0);
    FieldCut(buf);
    e, rest := buf[..k], buf[k + 1..];
  }

  lemma {:induction false} NumberFront(buf: Bytes, a: Bytes, v: Int32, rest: Bytes)
    requires NumberText(a, v) && buf == a + [SLASH] + rest
    ensures Front(NumKind, buf, a, Num(v), rest)
  {
    NumberIff(a, v);
    NumberIsField(a);
  }

  // ---------- messages ----------

  lemma {:induction false} OneNumberRead(a: Bytes, s: Int32)
    requires NumberText(a, s)
    ensures Unpack([NumKind], a + [SLASH]) == Some([Num(s)])
  {
    var buf := a + [SLASH];
    assert buf == a + [SLASH] + [];
    NumberFront(buf, a, s, []);
    UnpackFront(NumKind, [], buf, a, Num(s), [], []);
    assert [NumKind] + [] == [NumKind] && [Num(s)] + [] == [Num(s)];
  }

  lemma {:induction false} TwoNumbersRead(a: Bytes, s: Int32, b: Bytes, n: Int32)
    requires NumberText(a, s) && NumberText(b, n)
    ensures Unpack([NumKind, NumKind], a + [SLASH] + (b + [SLASH])) == Some([Num(s), Num(n)])
  {
    var rest := b + [SLASH];
    OneNumberRead(b, n);
    NumberFront(a + [SLASH] + rest, a, s, rest);
    UnpackFront(NumKind, [NumKind], a + [SLASH] + rest, a, Num(s), rest, [Num(n)]);
    assert [NumKind] + [NumKind] == [NumKind, NumKind] && [Num(s)] + [Num(n)] == [Num(s), Num(n)];
  }

  lemma {:induction false} PayloadRead(e: Bytes)
    requires FieldText(e)
    ensures Unpack([RawKind], e + [SLASH]) == Some([Raw(Unescape(None, e))])
  {
    var buf, f := e + [SLASH], Raw(Unescape(None, e));
    assert buf == e + [SLASH] + [];
    UnpackFront(RawKind, [], buf, e, f, [], []);
    assert [RawKind] + [] == [RawKind] && [f] + [] == [f];
  }

  lemma {:induction false} NumberThen(a: Bytes, s: Int32, kinds: seq<Kind>, rest: Bytes, fs: seq<Field>)
    requires NumberText(a, s) && Unpack(kinds, rest) == Some(fs)
    ensures Unpack([NumKind] + kinds, a + [SLASH] + rest) == Some([Num(s)] + fs)
  {
    NumberFront(a + [SLASH] + rest, a, s, rest);
    UnpackFront(NumKind, kinds, a + [SLASH] + rest, a, Num(s), rest, fs);
  }

  lemma {:induction false} DataRead(a: Bytes, s: Int32, b: Bytes, p: Int32, e: Bytes)
    requires NumberText(a, s) && NumberText(b, p) && FieldText(e)
    ensures Unpack([NumKind, NumKind, RawKind], a + [SLASH] + (b + [SLASH] + (e + [SLASH]))) ==
            Some([Num(s), Num(p), Raw(Unescape(None, e))])
  {
    var f := Raw(Unescape(None, e));
    PayloadRead(e);
    NumberThen(b, p, [RawKind], e + [SLASH], [f]);
    NumberThen(a, s, [NumKind] + [RawKind], b + [SLASH] + (e + [SLASH]), [Num(p)] + [f]);
    assert [NumKind] + ([NumKind] + [RawKind]) == [NumKind, NumKind, RawKind];
    assert [Num(s)] + ([Num(p)] + [f]) == [Num(s), Num(p), f];
  }

  /** What follows the action is unpacked as a whole, in a datagram. */
  lemma {:induction false} DecodeIs(raw: Bytes, m: Message, body: Bytes)
    requires |raw| <= MTU && raw == Action(m) + body
    ensures Decode(raw) ==
      match Unpack(KindsOf(Action(m)).value, body) case None => None case Some(fs) => Build(Action(m), fs)
  {
    var a := Action(m);
    ActionFound(m, body);
    ActionKnown(m);
    assert raw[..|a|] == a && raw[|a|..] == body && body[..|body|] == body;
  }

  lemma {:induction false} SaidIsDecoded(raw: Bytes, m: Message)
    requires |raw| <= MTU && Says(raw, m)
    ensures Decode(raw) == Some(m)
  {
    if m.Data? {
      SaidDataIsDecoded(raw, m);
    } else if m.Ack? {
      SaidAckIsDecoded(raw, m);
    } else {
      Words();
      var a :| NumberText(a, m.session) && raw == Action(m) + (a + Text("/"));
      OneNumberRead(a, m.session);
      DecodeIs(raw, m, a + [SLASH]);
    }
  }

  lemma {:induction false} SaidAckIsDecoded(raw: Bytes, m: Message)
    requires |raw| <= MTU && m.Ack? && Says(raw, m)
    ensures Decode(raw) == Some(m)
  {
    Words();
    var a, b :| NumberText(a, m.session) && NumberText(b, m.length)
      && raw == Text("/ack/") + (a + Text("/") + (b + Text("/")));
    TwoNumbersRead(a, m.session, b, m.length);
    DecodeIs(raw, m, a + [SLASH] + (b + [SLASH]));
  }

  lemma {:induction false} SaidDataIsDecoded(raw: Bytes, m: Message)
    requires |raw| <= MTU && m.Data? && Says(raw, m)
    ensures Decode(raw) == Some(m)
  {
    Words();
    var a, b, e :| NumberText(a, m.session) && NumberText(b, m.pos) && FieldText(e) && m.data == Unescape(None, e)
      && raw == Text("/data/") + (a + Text("/") + (b + Text("/") + (e + Text("/"))));
    DataRead(a, m.session, b, m.pos, e);
    DecodeIs(raw, m, a + [SLASH] + (b + [SLASH] + (e + [SLASH])));
  }

  /** A number at the front of what was unpacked, and its text. */
  lemma {:induction false} NumberUnpacked(kinds: seq<Kind>, buf: Bytes) returns (a: Bytes, v: Int32, rest: Bytes)
    requires Unpack([NumKind] + kinds, buf).Some?
    ensures NumberText(a, v) && buf == a + [SLASH] + rest && Unpack(kinds, rest).Some?
    ensures Unpack([NumKind] + kinds, buf).value == [Num(v)] + Unpack(kinds, rest).value
  {
    a, rest := FrontUnpacked(NumKind, kinds, buf);
    v := ParseInt32(a).value;
    NumberIff(a, v);
  }

  lemma {:induction false} NothingLeft(rest: Bytes)
    requires Unpack([], rest).Some?
    ensures rest == [] && Unpack([], rest).value == []
  {
  }

  lemma {:induction false} OneNumberWas(body: Bytes) returns (a: Bytes, s: Int32)
    requires Unpack([NumKind], body).Some?
    ensures NumberText(a, s) && body == a + [SLASH] && Unpack([NumKind], body).value == [Num(s)]
  {
    assert [NumKind] == [NumKind] + [];
    var rest;
    a, s, rest := NumberUnpacked([], body);
    NothingLeft(rest);
    assert a + [SLASH] + [] == a + [SLASH];
  }

  lemma {:induction false} TwoNumbersWere(body: Bytes) returns (a: Bytes, s: Int32, b: Bytes, n: Int32)
    requires Unpack([NumKind, NumKind], body).Some?
    ensures NumberText(a, s) && NumberText(b, n) && body == a + [SLASH] + (b + [SLASH])
    ensures Unpack([NumKind, NumKind], body).value == [Num(s), Num(n)]
  {
    assert [NumKind, NumKind] == [NumKind] + [NumKind];
    var rest;
    a, s, rest := NumberUnpacked([NumKind], body);
    b, n := OneNumberWas(rest);
  }

  lemma {:induction false} PayloadWas(body: Bytes) returns (e: Bytes)
    requires Unpack([RawKind], body).Some?
    ensures FieldText(e) && body == e + [SLASH] && Unpack([RawKind], body).value == [Raw(Unescape(None, e))]
  {
    assert [RawKind] == [RawKind] + [];
    var rest;
    e, rest := FrontUnpacked(RawKind, [], body);
    NothingLeft(rest);
    assert e + [SLASH] + [] == e + [SLASH];
  }

  lemma {:induction false} DataWas(body: Bytes) returns (a: Bytes, s: Int32, b: Bytes, p: Int32, e: Bytes)
    requires Unpack([NumKind, NumKind, RawKind], body).Some?
    ensures NumberText(a, s) && NumberText(b, p) && FieldText(e) && body == a + [SLASH] + (b + [SLASH] + (e + [SLASH]))
    ensures Unpack([NumKind, NumKind, RawKind], body).value == [Num(s), Num(p), Raw(Unescape(None, e))]
  {
    assert [NumKind, NumKind, RawKind] == [NumKind] + ([NumKind] + [RawKind]);
    var rest, rest';
    a, s, rest := NumberUnpacked([NumKind] + [RawKind], body);
    b, p, rest' := NumberUnpacked([RawKind], rest);
    e := PayloadWas(rest');
  }

  lemma {:induction false} DecodedBody(raw: Bytes, m: Message) returns (body: Bytes)
    requires |raw| <= MTU && Decode(raw) == Some(m)
    ensures raw == Action(m) + body && KindsOf(Action(m)).Some?
    ensures Unpack(KindsOf(Action(m)).value, body) == Some(Fields(m))
  {
    var k := ActionEnd(raw, 0, 2).value;
    body := raw[k..];
    assert body[..|body|] == body && raw == raw[..k] + body;
    var fs := Unpack(KindsOf(raw[..k]).value, body).value;
    BuiltFrom(raw[..k], fs, m);
  }

  lemma {:induction false} BuiltFrom(action: Bytes, fs: seq<Field>, m: Message)
    requires Build(action, fs) == Some(m)
    ensures Action(m) == action && Fields(m) == fs
  {
  }

  lemma {:induction false} DecodedIsSaid(raw: Bytes, m: Message)
    requires |raw| <= MTU && Decode(raw) == Some(m)
    ensures Says(raw, m)
  {
    Words();
    var body := DecodedBody(raw, m);
    if m.Data? {
      var a, s, b, p, e := DataWas(body);
    } else if m.Ack? {
      var a, s, b, n := TwoNumbersWere(body);
    } else {
      var a, s := OneNumberWas(body);
    }
  }

  /** The decoder takes a datagram for a message exactly when it says that message, and drops every other. */
  lemma {:induction false} DecodeIff(raw: Bytes, m: Message)
    requires |raw| <= 999
    ensures Decode(raw) == Some(m) <==> Says(raw, m)
  {
    if Says(raw, m) {
      SaidIsDecoded(raw, m);
    }
    if Decode(raw) == Some(m) {
      DecodedIsSaid(raw, m);
    }
  }
}
