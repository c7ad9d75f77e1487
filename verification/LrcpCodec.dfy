/**
 * The LRCP text codec: slash-delimited fields, decimal numbers and backslash escaping.
 * The loops of the program are methods, each proved equal to the function of the same task.
 */
module LrcpCodec {
  import opened Bytes
  import opened Common

  const MTU := 999
  const ACTION_MAX := 9
  const MINUS: Byte := 45
  const PLUS: Byte := 43
  const ZERO: Byte := 48

  datatype Message =
    | Connect(session: Int32)
    | Data(session: Int32, pos: Int32, data: Bytes)
    | Ack(session: Int32, length: Int32)
    | Close(session: Int32)

  // ---------- decimal numbers ----------

  /** The decimal digits of n, most significant first, at least one. */
  function Decimal(n: nat): Bytes {
    if n < 10 then [ZERO + n] else Decimal(n / 10) + [ZERO + n % 10]
  }

  /** What "%d" prints. */
  function FormatInt(n: int): Bytes {
    if n < 0 then [MINUS] + Decimal(-n) else Decimal(n)
  }

  predicate IsDigit(b: Byte) {
    ZERO <= b <= ZERO + 9
  }

  /** The value of a string of digits; None for an empty string or another character. */
  function ParseDigits(s: Bytes): Option<nat> {
    if s == [] || !IsDigit(s[|s| - 1]) then None
    else if |s| == 1 then Some(s[0] - ZERO)
    else
      match ParseDigits(s[..|s| - 1])
      case None => None
      case Some(v) => Some(10 * v + (s[|s| - 1] - ZERO))
  }

  function ToInt32(v: int): Option<Int32> {
    if -0x8000_0000 <= v < 0x8000_0000 then Some(v) else None
  }

  /** strconv.ParseInt(s, 10, 32): optional sign, decimal digits, 32-bit range. */
  function ParseInt32(s: Bytes): Option<Int32> {
    if s == [] then None
    else
      var negative := s[0] == MINUS;
      var digits := if negative || s[0] == PLUS then s[1..] else s;
      match ParseDigits(digits)
      case None => None
      case Some(v) => if negative then ToInt32(0 - v) else ToInt32(v)
  }

  lemma {:induction false} DecimalRoundTrip(n: nat)
    ensures Decimal(n) != [] && ParseDigits(Decimal(n)) == Some(n) && AllDigits(Decimal(n))
  {
    if n >= 10 {
      DecimalRoundTrip(n / 10);
      var s := Decimal(n);
      assert s[..|s| - 1] == Decimal(n / 10);
    }
  }

  ghost predicate AllDigits(s: Bytes) {
    forall i :: 0 <= i < |s| ==> IsDigit(s[i])
  }

  lemma SignedRoundTrip(negative: bool, digits: Bytes, v: nat)
    requires digits != [] && AllDigits(digits) && ParseDigits(digits) == Some(v)
    ensures ParseInt32(if negative then [MINUS] + digits else digits) == ToInt32(if negative then 0 - v else v)
  {
    assert IsDigit(digits[0]);
    assert ([MINUS] + digits)[1..] == digits;
  }

  lemma IntRoundTrip(n: Int32)
    ensures ParseInt32(FormatInt(n)) == Some(n)
  {
    DecimalRoundTrip(Abs(n));
    SignedRoundTrip(n < 0, Decimal(Abs(n)), Abs(n));
  }

  lemma FormatShape(n: int)
    ensures FormatInt(n) != [] && SLASH !in FormatInt(n)
    ensures IsDigit(FormatInt(n)[|FormatInt(n)| - 1])
  {
    DecimalRoundTrip(Abs(n));
  }

  /** 32-bit numbers have at most ten digits. */
  lemma {:induction false} DecimalLength(n: nat, k: nat, bound: nat)
    requires 1 <= k && bound == Pow10(k) && n < bound
    ensures |Decimal(n)| <= k
  {
    if n >= 10 {
      DecimalLength(n / 10, k - 1, Pow10(k - 1));
    }
  }

  function Pow10(k: nat): nat {
    if k == 0 then 1 else 10 * Pow10(k - 1)
  }

  lemma Int32Digits(n: Int32)
    ensures 1 <= |Decimal(Abs(n))| <= 10
  {
    assert Pow10(2) == 100;
    assert Pow10(4) == 1_0000;
    assert Pow10(6) == 100_0000;
    assert Pow10(8) == 1_0000_0000;
    assert Pow10(10) == 100_0000_0000;
    DecimalLength(Abs(n), 10, Pow10(10));
  }

  /** The program's division truncates toward zero. */
  function TruncDiv10(v: int): int {
    if v < 0 then -(-v / 10) else v / 10
  }

  /** util.Digits: how many decimal digits the number has, its sign not counted. */
  method Digits(val: Int32) returns (count: nat)
    ensures count == |Decimal(Abs(val))|
    ensures 1 <= count <= 10
  {
    Int32Digits(val);
    if val == 0 {
      return 1;
    }
    count := 0;
    var v: int := val;
    while v != 0
      invariant count + (if v == 0 then 0 else |Decimal(Abs(v))|) == |Decimal(Abs(val))|
      decreases Abs(v)
    {
      v := TruncDiv10(v);
      count := count + 1;
    }
  }

  // ---------- escaping ----------

  predicate Special(b: Byte) {
    b == SLASH || b == BACKSLASH
  }

  function Escape(d: Bytes): Bytes {
    if d == [] then []
    else (if Special(d[0]) then [BACKSLASH, d[0]] else [d[0]]) + Escape(d[1..])
  }

  /** The decoder drops a backslash unless it opens the field or follows another backslash. */
  predicate Dropped(prev: Option<Byte>, b: Byte) {
    b == BACKSLASH && prev.Some? && prev.value != BACKSLASH
  }

  function Unescape(prev: Option<Byte>, s: Bytes): Bytes
    decreases s
  {
    if s == [] then []
    else (if Dropped(prev, s[0]) then [] else [s[0]]) + Unescape(Some(s[0]), s[1..])
  }

  /** The index of the first slash that no backslash precedes, or -1. */
  function NextSlashFrom(buf: Bytes, i: nat): (k: int)
    requires i <= |buf|
    ensures k == -1 || i <= k < |buf|
    decreases |buf| - i
  {
    if i == |buf| then -1
    else if buf[i] == SLASH && !(i > 0 && buf[i - 1] == BACKSLASH) then i
    else NextSlashFrom(buf, i + 1)
  }

  predicate Delimiter(buf: Bytes, k: int)
    requires 0 <= k < |buf|
  {
    buf[k] == SLASH && (k == 0 || buf[k - 1] != BACKSLASH)
  }

  method NextSlash(buf: Bytes) returns (k: int)
    ensures k == NextSlashFrom(buf, 0)
    ensures -1 <= k < |buf|
    ensures k >= 0 ==> Delimiter(buf, k)
    ensures forall j :: 0 <= j < (if k >= 0 then k else |buf|) ==> !Delimiter(buf, j)
  {
    var idx := 0;
    while idx < |buf|
      invariant 0 <= idx <= |buf|
      invariant NextSlashFrom(buf, idx) == NextSlashFrom(buf, 0)
      invariant forall j :: 0 <= j < idx ==> !Delimiter(buf, j)
    {
      if buf[idx] == SLASH && !(idx > 0 && buf[idx - 1] == BACKSLASH) {
        return idx;
      }
      idx := idx + 1;
    }
    return -1;
  }

  /** A byte that needs no escaping follows, if there is a backslash at i. */
  predicate Lone(d: Bytes, i: nat)
    requires i + 1 < |d|
  {
    d[i] == BACKSLASH ==> !Special(d[i + 1])
  }

  predicate AllLone(d: Bytes) {
    forall i :: 0 <= i < |d| - 1 ==> Lone(d, i)
  }

  /** A payload that survives the round trip: see DataRoundTripIff. */
  predicate Clean(d: Bytes) {
    && (d != [] ==> !Special(d[0]) && d[|d| - 1] != BACKSLASH)
    && AllLone(d)
  }

  /** How many escaping backslashes the decoder fails to drop. */
  ghost function Kept(prev: Option<Byte>, d: Bytes): nat
    decreases d
  {
    if d == [] then 0
    else (if Special(d[0]) && (prev.None? || prev.value == BACKSLASH) then 1 else 0) + Kept(Some(d[0]), d[1..])
  }

  lemma {:induction false} UnescapeEscape(prev: Option<Byte>, d: Bytes)
    ensures |Unescape(prev, Escape(d))| == |d| + Kept(prev, d)
    ensures Kept(prev, d) == 0 ==> Unescape(prev, Escape(d)) == d
    decreases d
  {
    if d != [] {
      var e, rest := Escape(d), Escape(d[1..]);
      UnescapeEscape(Some(d[0]), d[1..]);
      if Special(d[0]) {
        assert e[1..] == [d[0]] + rest;
        assert e[1..][1..] == rest;
        assert Unescape(Some(BACKSLASH), e[1..]) == [d[0]] + Unescape(Some(d[0]), rest);
      } else {
        assert e[1..] == rest;
      }
    }
  }

  lemma {:induction false} AllLoneTail(d: Bytes)
    requires d != []
    ensures AllLone(d) <==> (|d| > 1 ==> Lone(d, 0)) && AllLone(d[1..])
  {
    forall i | 0 <= i < |d| - 2 ensures Lone(d, i + 1) <==> Lone(d[1..], i) {
      assert d[1..][i] == d[i + 1] && d[1..][i + 1] == d[i + 2];
    }
    if |d| > 1 && Lone(d, 0) && AllLone(d[1..]) {
      forall i | 0 <= i < |d| - 1 ensures Lone(d, i) {
        assert i > 0 ==> Lone(d[1..], i - 1);
      }
    }
  }

  lemma {:induction false} KeptIff(prev: Option<Byte>, d: Bytes)
    ensures Kept(prev, d) == 0 <==>
      (d != [] && Special(d[0]) ==> prev.Some? && prev.value != BACKSLASH) && AllLone(d)
    decreases d
  {
    if d != [] {
      KeptIff(Some(d[0]), d[1..]);
      AllLoneTail(d);
    }
  }

  lemma {:induction false} EscapeShape(d: Bytes)
    ensures |Escape(d)| == |d| + EscapeCount(d)
    ensures (d == []) == (Escape(d) == [])
    ensures d != [] ==> Escape(d)[|Escape(d)| - 1] == d[|d| - 1]
    ensures forall i :: 0 <= i < |Escape(d)| && Escape(d)[i] == SLASH ==> i > 0 && Escape(d)[i - 1] == BACKSLASH
  {
    if d != [] {
      EscapeShape(d[1..]);
      var head := if Special(d[0]) then [BACKSLASH, d[0]] else [d[0]];
      var e, rest := Escape(d), Escape(d[1..]);
      assert e == head + rest;
      assert forall i :: |head| <= i < |e| ==> e[i] == rest[i - |head|];
    }
  }

  lemma {:induction false} NextSlashSkips(buf: Bytes, i: nat, k: nat)
    requires i <= k <= |buf|
    requires forall j :: i <= j < k ==> !Delimiter(buf, j)
    ensures NextSlashFrom(buf, i) == NextSlashFrom(buf, k)
    decreases k - i
  {
    if i < k {
      assert !Delimiter(buf, i);
      NextSlashSkips(buf, i + 1, k);
    }
  }

  /** The closing slash of a payload is seen exactly when the payload does not end in a backslash. */
  lemma PayloadDelimiter(d: Bytes)
    ensures NextSlashFrom(Escape(d) + [SLASH], 0) ==
            if d != [] && d[|d| - 1] == BACKSLASH then -1 else |Escape(d)|
  {
    EscapeShape(d);
    var e := Escape(d);
    var buf := e + [SLASH];
    forall j | 0 <= j < |e| ensures !Delimiter(buf, j) {
      assert buf[j] == e[j];
    }
    NextSlashSkips(buf, 0, |e|);
    assert NextSlashFrom(buf, |e| + 1) == -1;
  }

  lemma NumberDelimiter(n: Int32, rest: Bytes)
    ensures NextSlashFrom(FormatInt(n) + [SLASH] + rest, 0) == |FormatInt(n)|
  {
    FormatShape(n);
    var f := FormatInt(n);
    var buf := f + [SLASH] + rest;
    assert forall j :: 0 <= j < |f| ==> buf[j] == f[j];
    NextSlashSkips(buf, 0, |f|);
  }

  // ---------- fields ----------

  datatype Field = Num(n: Int32) | Raw(bytes: Bytes)
  datatype Kind = NumKind | RawKind

  function PackField(f: Field): Bytes {
    match f
    case Num(n) => FormatInt(n) + [SLASH]
    case Raw(d) => Escape(d) + [SLASH]
  }

  function Pack(fields: seq<Field>): Bytes {
    if fields == [] then [] else PackField(fields[0]) + Pack(fields[1..])
  }

  lemma {:induction false} EscapeSnoc(d: Bytes, b: Byte)
    ensures Escape(d + [b]) == Escape(d) + (if Special(b) then [BACKSLASH, b] else [b])
  {
    if d == [] {
      assert [b][1..] == [] && [] + [b] == [b];
      assert Escape([]) == [];
    } else {
      assert (d + [b])[1..] == d[1..] + [b];
      EscapeSnoc(d[1..], b);
      ConcatAssoc(if Special(d[0]) then [BACKSLASH, d[0]] else [d[0]], Escape(d[1..]),
                  if Special(b) then [BACKSLASH, b] else [b]);
    }
  }

  method WriteEscaped(d: Bytes) returns (out: Bytes)
    ensures out == Escape(d)
  {
    out := [];
    for i := 0 to |d|
      invariant out == Escape(d[..i])
    {
      EscapeSnoc(d[..i], d[i]);
      assert d[..i] + [d[i]] == d[..i + 1];
      if d[i] == BACKSLASH || d[i] == SLASH {
        out := out + [BACKSLASH, d[i]];
      } else {
        out := out + [d[i]];
      }
    }
    assert d[..|d|] == d;
  }

  lemma {:induction false} PackSnoc(fields: seq<Field>, f: Field)
    ensures Pack(fields + [f]) == Pack(fields) + PackField(f)
  {
    if fields == [] {
      PackOne(f);
      assert fields + [f] == [f];
    } else {
      assert (fields + [f])[1..] == fields[1..] + [f];
      PackSnoc(fields[1..], f);
      ConcatAssoc(PackField(fields[0]), Pack(fields[1..]), PackField(f));
    }
  }

  method WriteField(f: Field) returns (out: Bytes)
    ensures out == PackField(f)
  {
    match f {
      case Num(n) =>
        out := FormatInt(n);
      case Raw(d) =>
        out := WriteEscaped(d);
    }
    out := out + [SLASH];
  }

  lemma {:induction false} PackPrefix(fields: seq<Field>, k: nat)
    requires k < |fields|
    ensures Pack(fields[..k + 1]) == Pack(fields[..k]) + PackField(fields[k])
  {
    PackSnoc(fields[..k], fields[k]);
    assert fields[..k] + [fields[k]] == fields[..k + 1];
  }

  method PackToWriter(fields: seq<Field>) returns (out: Bytes)
    ensures out == Pack(fields)
  {
    out := [];
    for k := 0 to |fields|
      invariant out == Pack(fields[..k])
    {
      var written := WriteField(fields[k]);
      PackPrefix(fields, k);
      out := out + written;
    }
    assert fields[..|fields|] == fields;
  }

  function UnpackField(kind: Kind, raw: Bytes): Option<Field> {
    match kind
    case NumKind => (match ParseInt32(raw) case None => None case Some(n) => Some(Num(n)))
    case RawKind => Some(Raw(Unescape(None, raw)))
  }

  /** One field per kind, each ended by a delimiter, and nothing left over. */
  function Unpack(kinds: seq<Kind>, buf: Bytes): Option<seq<Field>>
    decreases |kinds|
  {
    if kinds == [] then if buf == [] then Some([]) else None
    else
      var k := NextSlashFrom(buf, 0);
      if k == -1 then None
      else
        match UnpackField(kinds[0], buf[..k])
        case None => None
        case Some(f) =>
          match Unpack(kinds[1..], buf[k + 1..])
          case None => None
          case Some(fs) => Some([f] + fs)
  }

  lemma {:induction false} UnescapeSnoc(prev: Option<Byte>, s: Bytes, b: Byte)
    ensures Unescape(prev, s + [b]) ==
            Unescape(prev, s) + (if Dropped(if s == [] then prev else Some(s[|s| - 1]), b) then [] else [b])
    decreases s
  {
    if s == [] {
      assert s + [b] == [b] && [b][1..] == [];
      assert Unescape(Some(b), []) == [];
    } else {
      assert (s + [b])[1..] == s[1..] + [b];
      UnescapeSnoc(Some(s[0]), s[1..], b);
      ConcatAssoc(if Dropped(prev, s[0]) then [] else [s[0]], Unescape(Some(s[0]), s[1..]),
                  if Dropped(Some(s[|s| - 1]), b) then [] else [b]);
    }
  }

  method UnescapeField(cur: Bytes) returns (bytesVal: Bytes)
    ensures bytesVal == Unescape(None, cur)
  {
    bytesVal := [];
    for idx := 0 to |cur|
      invariant bytesVal == Unescape(None, cur[..idx])
    {
      UnescapeSnoc(None, cur[..idx], cur[idx]);
      assert cur[..idx] + [cur[idx]] == cur[..idx + 1];
      if cur[idx] == BACKSLASH && idx > 0 && cur[idx - 1] != BACKSLASH {
        continue;
      }
      bytesVal := bytesVal + [cur[idx]];
    }
    assert cur[..|cur|] == cur;
  }

  /** What a failed suffix means for the whole. */
  function Prepend(done: seq<Field>, rest: Option<seq<Field>>): Option<seq<Field>> {
    match rest
    case None => None
    case Some(fs) => Some(done + fs)
  }

  lemma PrependNothing(rest: Option<seq<Field>>)
    ensures Prepend([], rest) == rest
  {
    if rest.Some? {
      assert [] + rest.value == rest.value;
    }
  }

  /** Peeling one field off the front of the buffer. */
  lemma UnpackOne(done: seq<Field>, kinds: seq<Kind>, buf: Bytes, slash: nat, f: Field)
    requires kinds != [] && NextSlashFrom(buf, 0) == slash && UnpackField(kinds[0], buf[..slash]) == Some(f)
    ensures Prepend(done, Unpack(kinds, buf)) == Prepend(done + [f], Unpack(kinds[1..], buf[slash + 1..]))
  {
    var rest := Unpack(kinds[1..], buf[slash + 1..]);
    if rest.Some? {
      ConcatAssoc(done, [f], rest.value);
    }
  }

  lemma UnpackFails(done: seq<Field>, kinds: seq<Kind>, buf: Bytes, slash: int)
    requires kinds != [] && NextSlashFrom(buf, 0) == slash
    requires slash != -1 ==> UnpackField(kinds[0], buf[..slash]) == None
    ensures Prepend(done, Unpack(kinds, buf)) == None
  {
  }

  lemma UnpackDone(done: seq<Field>, buf: Bytes)
    ensures Prepend(done, Unpack([], buf)) == if buf != [] then None else Some(done)
  {
    assert done + [] == done;
  }

  method UnpackValue(kind: Kind, raw: Bytes) returns (f: Option<Field>)
    ensures f == UnpackField(kind, raw)
  {
    match kind {
      case NumKind =>
        var n := ParseInt32(raw);
        f := if n.None? then None else Some(Num(n.value));
      case RawKind =>
        var bytesVal := UnescapeField(raw);
        f := Some(Raw(bytesVal));
    }
  }

  /** Reads at most MTU bytes; any failure, or bytes left over, is an error. */
  method UnpackFromReader(input: Bytes, kinds: seq<Kind>) returns (fields: Option<seq<Field>>)
    requires kinds != []
    ensures fields == Unpack(kinds, input[..Min(999, |input|)])
  {
    var rest := input[..Min(MTU, |input|)];
    if rest == [] {
      return None;
    }
    var todo, done := kinds, [];
    ghost var result := Unpack(kinds, rest);
    PrependNothing(result);
    while todo != []
      invariant Prepend(done, Unpack(todo, rest)) == result
      decreases |todo|
    {
      var slashIdx := NextSlash(rest);
      if slashIdx == -1 {
        UnpackFails(done, todo, rest, slashIdx);
        return None;
      }
      var field := UnpackValue(todo[0], rest[..slashIdx]);
      if field.None? {
        UnpackFails(done, todo, rest, slashIdx);
        return None;
      }
      UnpackOne(done, todo, rest, slashIdx, field.value);
      done, todo, rest := done + [field.value], todo[1..], rest[slashIdx + 1..];
    }
    UnpackDone(done, rest);
    if rest != [] {
      return None;
    }
    return Some(done);
  }

  lemma UnpackNum(n: Int32, kinds: seq<Kind>, rest: Bytes)
    requires kinds != [] && kinds[0] == NumKind
    ensures Unpack(kinds, PackField(Num(n)) + rest) == Prepend([Num(n)], Unpack(kinds[1..], rest))
  {
    IntRoundTrip(n);
    NumberDelimiter(n, rest);
    var f := FormatInt(n);
    var buf := f + [SLASH] + rest;
    assert buf[..|f|] == f;
    assert buf[|f| + 1..] == rest;
  }

  /** A single field filling the buffer up to its closing slash. */
  lemma UnpackLast(kind: Kind, e: Bytes, f: Field)
    requires NextSlashFrom(e + [SLASH], 0) == |e| && UnpackField(kind, e) == Some(f)
    ensures Unpack([kind], e + [SLASH]) == Some([f])
  {
    var buf := e + [SLASH];
    assert buf[..|e|] == e && buf[|e| + 1..] == [] && [kind][1..] == [];
    assert Unpack([], []) == Some([]);
    assert [f] + [] == [f];
  }

  lemma UnpackRaw(d: Bytes)
    ensures Unpack([RawKind], PackField(Raw(d))) ==
            DecodedPayload(d)
  {
    PayloadDelimiter(d);
    if d == [] || d[|d| - 1] != BACKSLASH {
      UnpackLast(RawKind, Escape(d), Raw(Unescape(None, Escape(d))));
    }
  }

  // ---------- messages ----------

  const CONNECT: Bytes := [47, 99, 111, 110, 110, 101, 99, 116, 47]
  const DATA: Bytes := [47, 100, 97, 116, 97, 47]
  const ACK: Bytes := [47, 97, 99, 107, 47]
  const CLOSE: Bytes := [47, 99, 108, 111, 115, 101, 47]

  function Action(m: Message): Bytes {
    match m
    case Connect(_) => CONNECT
    case Data(_, _, _) => DATA
    case Ack(_, _) => ACK
    case Close(_) => CLOSE
  }

  function Fields(m: Message): seq<Field> {
    match m
    case Connect(s) => [Num(s)]
    case Data(s, p, d) => [Num(s), Num(p), Raw(d)]
    case Ack(s, n) => [Num(s), Num(n)]
    case Close(s) => [Num(s)]
  }

  /** The bytes of a message, the size check apart. */
  function Encode(m: Message): Bytes {
    Action(m) + Pack(Fields(m))
  }

  /** The bytes of an ASCII text. */
  function Text(s: string): Bytes {
    seq(|s|, i requires 0 <= i < |s| => s[i] as int % 256)
  }

  /** The words and slashes of each kind of message. */
  lemma {:induction false} TextForm(session: Int32, n: Int32, d: Bytes)
    ensures Encode(Connect(session)) == Text("/connect/") + FormatInt(session) + Text("/")
    ensures Encode(Ack(session, n)) == Text("/ack/") + FormatInt(session) + Text("/") + FormatInt(n) + Text("/")
    ensures Encode(Close(session)) == Text("/close/") + FormatInt(session) + Text("/")
    ensures Encode(Data(session, n, d)) ==
            Text("/data/") + FormatInt(session) + Text("/") + FormatInt(n) + Text("/") + Escape(d) + Text("/")
  {
    Words();
    PackOne(Num(session));
    ConcatAssoc(Text("/connect/"), FormatInt(session), Text("/"));
    ConcatAssoc(Text("/close/"), FormatInt(session), Text("/"));
    AckForm(session, n);
    DataForm(session, n, d);
  }

  lemma {:induction false} AckForm(session: Int32, n: Int32)
    ensures Encode(Ack(session, n)) == Text("/ack/") + FormatInt(session) + Text("/") + FormatInt(n) + Text("/")
  {
    Words();
    PackMore(Num(session), [Num(n)]);
    PackOne(Num(n));
    Flatten4(Text("/ack/"), FormatInt(session), Text("/"), FormatInt(n));
  }

  lemma {:induction false} DataForm(session: Int32, n: Int32, d: Bytes)
    ensures Encode(Data(session, n, d)) ==
            Text("/data/") + FormatInt(session) + Text("/") + FormatInt(n) + Text("/") + Escape(d) + Text("/")
  {
    Words();
    PackMore(Num(session), [Num(n), Raw(d)]);
    PackMore(Num(n), [Raw(d)]);
    PackOne(Raw(d));
    Flatten5(Text("/data/"), FormatInt(session), Text("/"), FormatInt(n), Escape(d));
  }

  lemma Flatten4(w: Bytes, a: Bytes, slash: Bytes, b: Bytes)
    ensures w + ((a + slash) + (b + slash)) == w + a + slash + b + slash
  {
  }

  lemma {:induction false} Flatten5(w: Bytes, a: Bytes, slash: Bytes, b: Bytes, c: Bytes)
    ensures w + ((a + slash) + ((b + slash) + (c + slash))) == w + a + slash + b + slash + c + slash
  {
    Flatten4(w, a, slash, b);
    ConcatAssoc(a + slash, b + slash, c + slash);
    ConcatAssoc(w, (a + slash) + (b + slash), c + slash);
    ConcatAssoc(w + a + slash + b + slash, c, slash);
  }

  lemma Words()
    ensures CONNECT == Text("/connect/") && ACK == Text("/ack/") && CLOSE == Text("/close/") && DATA == Text("/data/")
    ensures [SLASH] == Text("/")
  {
  }

  /** Numbers are written in decimal characters. */
  lemma {:induction false} DecimalForm(n: int)
    requires 0 <= n
    ensures n < 10 ==> FormatInt(n) == Text(["0123456789"[n]])
    ensures n >= 10 ==> FormatInt(n) == FormatInt(n / 10) + FormatInt(n % 10)
    ensures n > 0 ==> FormatInt(-n) == Text("-") + FormatInt(n)
  {
  }

  function EscapeCount(d: Bytes): nat {
    if d == [] then 0 else (if Special(d[0]) then 1 else 0) + EscapeCount(d[1..])
  }

  function Size(n: Int32): nat {
    |Decimal(Abs(n))|
  }

  /** MarshalSize: nine bytes are counted for every action, whatever its length. */
  function MarshalSize(m: Message): nat {
    match m
    case Connect(s) => 9 + Size(s) + 1
    case Data(s, p, d) => 9 + Size(s) + 1 + Size(p) + 1 + |d| + EscapeCount(d) + 1
    case Ack(s, n) => 9 + Size(s) + 1 + Size(n) + 1
    case Close(s) => 9 + Size(s) + 1
  }

  method DataMarshalSize(s: Int32, pos: Int32, data: Bytes) returns (size: nat)
    ensures size == MarshalSize(Data(s, pos, data))
  {
    var dataLen := |data|;
    for i := 0 to |data|
      invariant dataLen + EscapeCount(data[i..]) == |data| + EscapeCount(data)
    {
      assert data[i..][1..] == data[i + 1..];
      if data[i] == SLASH || data[i] == BACKSLASH {
        dataLen := dataLen + 1;
      }
    }
    var sDigits := Digits(s);
    var posDigits := Digits(pos);
    size := 9 + sDigits + 1 + posDigits + 1 + dataLen + 1;
  }

  method Marshal(m: Message) returns (out: Option<Bytes>)
    ensures out == if MarshalSize(m) > 999 then None else Some(Encode(m))
  {
    if MarshalSize(m) > MTU {
      return None;
    }
    var body := PackToWriter(Fields(m));
    return Some(Action(m) + body);
  }

  /** The exact length written, against MarshalSize. */
  lemma EncodedLength(m: Message)
    ensures |Encode(m)| == MarshalSize(m) - (9 - |Action(m)|)
                           + (if m.session < 0 then 1 else 0)
                           + (if (m.Data? && m.pos < 0) || (m.Ack? && m.length < 0) then 1 else 0)
  {
    var fs := Fields(m);
    assert Pack(fs[1..]) == if |fs| == 1 then [] else PackField(fs[1]) + Pack(fs[1..][1..]);
    if m.Data? {
      EscapeShape(m.data);
      assert fs[1..][1..] == [Raw(m.data)];
      assert Pack([Raw(m.data)]) == PackField(Raw(m.data)) + Pack([Raw(m.data)][1..]);
      assert Pack([]) == [];
    } else if m.Ack? {
      assert fs[1..][1..] == [];
    }
  }

  /** MarshalSize bounds what is written, except for a connect message with a negative session number. */
  lemma MarshalSizeBoundsIff(m: Message)
    ensures |Encode(m)| <= MarshalSize(m) <==> !(m.Connect? && m.session < 0)
  {
    EncodedLength(m);
  }

  /** A message that Marshal accepts fits the datagram buffer, whatever the signs of its numbers. */
  lemma AcceptedFits(m: Message)
    requires MarshalSize(m) <= MTU
    ensures |Encode(m)| <= MTU
  {
    EncodedLength(m);
    Int32Digits(m.session);
  }

  function KindsOf(action: Bytes): Option<seq<Kind>> {
    if action == CONNECT || action == CLOSE then Some([NumKind])
    else if action == DATA then Some([NumKind, NumKind, RawKind])
    else if action == ACK then Some([NumKind, NumKind])
    else None
  }

  /** The message of an action and its fields. */
  function Build(action: Bytes, fs: seq<Field>): Option<Message> {
    if action == CONNECT && |fs| == 1 && fs[0].Num? then Some(Connect(fs[0].n))
    else if action == DATA && |fs| == 3 && fs[0].Num? && fs[1].Num? && fs[2].Raw? then
      Some(Data(fs[0].n, fs[1].n, fs[2].bytes))
    else if action == ACK && |fs| == 2 && fs[0].Num? && fs[1].Num? then Some(Ack(fs[0].n, fs[1].n))
    else if action == CLOSE && |fs| == 1 && fs[0].Num? then Some(Close(fs[0].n))
    else None
  }

  /** Where the action ends: after `slashes` more slashes or nine bytes; None when the input ends first. */
  function ActionEnd(raw: Bytes, i: nat, slashes: nat): (r: Option<nat>)
    requires i <= |raw|
    ensures r.Some? ==> i <= r.value <= |raw|
    decreases |raw| - i
  {
    if slashes == 0 || i == ACTION_MAX then Some(i)
    else if i == |raw| then None
    else ActionEnd(raw, i + 1, if raw[i] == SLASH then slashes - 1 else slashes)
  }

  function Decode(raw: Bytes): Option<Message> {
    match ActionEnd(raw, 0, 2)
    case None => None
    case Some(k) =>
      match KindsOf(raw[..k])
      case None => None
      case Some(kinds) =>
        match Unpack(kinds, raw[k..][..Min(MTU, |raw| - k)])
        case None => None
        case Some(fs) => Build(raw[..k], fs)
  }

  /** None stands for the unknown message returned with an error. */
  method UnmarshalMessage(raw: Bytes) returns (msg: Option<Message>)
    ensures msg == Decode(raw)
  {
    var action: Bytes := [];
    var foundSlash := 2;
    while foundSlash != 0 && |action| != ACTION_MAX
      invariant |action| <= |raw| && action == raw[..|action|]
      invariant 0 <= foundSlash <= 2
      invariant ActionEnd(raw, |action|, foundSlash) == ActionEnd(raw, 0, 2)
      decreases |raw| - |action|
    {
      if |action| == |raw| {
        return None;
      }
      var b := raw[|action|];
      if b == SLASH {
        foundSlash := foundSlash - 1;
      }
      action := action + [b];
    }
    var kinds := KindsOf(action);
    if kinds.None? {
      return None;
    }
    var fields := UnpackFromReader(raw[|action|..], kinds.value);
    if fields.None? {
      return None;
    }
    return Build(action, fields.value);
  }

  lemma {:induction false} ActionEndStops(raw: Bytes, i: nat, k: nat)
    requires i < k <= ACTION_MAX && k <= |raw|
    requires raw[k - 1] == SLASH && forall j :: i <= j < k - 1 ==> raw[j] != SLASH
    ensures ActionEnd(raw, i, 1) == Some(k)
    decreases k - i
  {
    if i < k - 1 {
      ActionEndStops(raw, i + 1, k);
    }
  }

  /** The action of an encoded message is found, whatever follows it. */
  lemma ActionFound(m: Message, rest: Bytes)
    ensures ActionEnd(Action(m) + rest, 0, 2) == Some(|Action(m)|)
  {
    var a, raw := Action(m), Action(m) + rest;
    assert forall j :: 0 <= j < |a| ==> raw[j] == a[j];
    ActionEndStops(raw, 1, |a|);
  }

  lemma ActionKnown(m: Message)
    ensures KindsOf(Action(m)).Some?
  {
  }

  lemma HeadAndBody(a: Bytes, body: Bytes)
    requires |a + body| <= MTU
    ensures (a + body)[..|a|] == a && (a + body)[|a|..][..Min(MTU, |a + body| - |a|)] == body
  {
    assert (a + body)[|a|..] == body;
  }

  /** Decoding comes down to unpacking what follows the action. */
  lemma {:induction false} DecodeBody(m: Message, body: Bytes)
    requires |Action(m) + body| <= MTU
    ensures KindsOf(Action(m)).Some?
    ensures Decode(Action(m) + body) == match Unpack(KindsOf(Action(m)).value, body)
                                        case None => None
                                        case Some(fs) => Build(Action(m), fs)
  {
    ActionFound(m, body);
    ActionKnown(m);
    HeadAndBody(Action(m), body);
  }

  /** For an encoded message these are its fields. */
  lemma {:induction false} DecodeEncode(m: Message)
    requires |Encode(m)| <= MTU
    ensures KindsOf(Action(m)).Some?
    ensures Decode(Encode(m)) == match Unpack(KindsOf(Action(m)).value, Pack(Fields(m)))
                                 case None => None
                                 case Some(fs) => Build(Action(m), fs)
  {
    DecodeBody(m, Pack(Fields(m)));
  }

  lemma PackOne(f: Field)
    ensures Pack([f]) == PackField(f)
  {
    assert [f][1..] == [] && PackField(f) + [] == PackField(f);
  }

  lemma PackMore(f: Field, fs: seq<Field>)
    ensures Pack([f] + fs) == PackField(f) + Pack(fs)
  {
    assert ([f] + fs)[1..] == fs;
  }

  lemma UnpackOneNumber(n: Int32)
    ensures Unpack([NumKind], Pack([Num(n)])) == Some([Num(n)])
  {
    PackOne(Num(n));
    IntRoundTrip(n);
    NumberDelimiter(n, []);
    assert FormatInt(n) + [SLASH] + [] == FormatInt(n) + [SLASH];
    UnpackLast(NumKind, FormatInt(n), Num(n));
  }

  lemma UnpackMore(n: Int32, kinds: seq<Kind>, fs: seq<Field>)
    ensures Unpack([NumKind] + kinds, Pack([Num(n)] + fs)) == Prepend([Num(n)], Unpack(kinds, Pack(fs)))
  {
    PackMore(Num(n), fs);
    assert ([NumKind] + kinds)[1..] == kinds;
    UnpackNum(n, [NumKind] + kinds, Pack(fs));
  }

  lemma UnpackAck(s: Int32, n: Int32)
    ensures Unpack([NumKind, NumKind], Pack([Num(s), Num(n)])) == Some([Num(s), Num(n)])
  {
    UnpackMore(s, [NumKind], [Num(n)]);
    UnpackOneNumber(n);
    assert [Num(s)] + [Num(n)] == [Num(s), Num(n)];
    assert [NumKind] + [NumKind] == [NumKind, NumKind];
  }

  /** A payload field decodes to `Unescape(Escape(d))`, unless it ends in a backslash. */
  ghost function DecodedPayload(d: Bytes): Option<seq<Field>> {
    if d != [] && d[|d| - 1] == BACKSLASH then None else Some([Raw(Unescape(None, Escape(d)))])
  }

  lemma UnpackData(s: Int32, p: Int32, d: Bytes)
    ensures Unpack([NumKind, NumKind, RawKind], Pack([Num(s), Num(p), Raw(d)])) ==
            Prepend([Num(s)], Prepend([Num(p)], DecodedPayload(d)))
  {
    PackOne(Raw(d));
    UnpackRaw(d);
    UnpackMore(p, [RawKind], [Raw(d)]);
    UnpackMore(s, [NumKind, RawKind], [Num(p), Raw(d)]);
    assert [Num(p)] + [Raw(d)] == [Num(p), Raw(d)] && [NumKind] + [RawKind] == [NumKind, RawKind];
    assert [Num(s)] + [Num(p), Raw(d)] == [Num(s), Num(p), Raw(d)];
    assert [NumKind] + [NumKind, RawKind] == [NumKind, NumKind, RawKind];
  }

  /** Connect, ack and close messages always survive the round trip. */
  lemma ControlRoundTrip(m: Message)
    requires !m.Data?
    ensures MarshalSize(m) <= MTU && Decode(Encode(m)) == Some(m)
  {
    Int32Digits(m.session);
    if m.Ack? {
      Int32Digits(m.length);
    }
    AcceptedFits(m);
    DecodeEncode(m);
    if m.Ack? {
      UnpackAck(m.session, m.length);
    } else {
      UnpackOneNumber(m.session);
    }
  }

  predicate EndsInBackslash(d: Bytes) {
    d != [] && d[|d| - 1] == BACKSLASH
  }

  /** The decoded payload is the payload exactly when no escaping backslash is kept. */
  lemma {:induction false} PayloadSurvivesIff(d: Bytes)
    ensures Unescape(None, Escape(d)) == d && !EndsInBackslash(d) <==> Clean(d)
  {
    UnescapeEscape(None, d);
    KeptIff(None, d);
  }

  /** What becomes of a data message that fits a datagram. */
  lemma {:induction false} DataDecoded(m: Message)
    requires m.Data? && |Encode(m)| <= MTU
    ensures Decode(Encode(m)) ==
            if EndsInBackslash(m.data) then None else Some(Data(m.session, m.pos, Unescape(None, Escape(m.data))))
  {
    DecodeEncode(m);
    UnpackData(m.session, m.pos, m.data);
    PrependNumbers(m.session, m.pos, m.data);
  }

  lemma PrependNumbers(s: Int32, p: Int32, d: Bytes)
    ensures Prepend([Num(s)], Prepend([Num(p)], DecodedPayload(d))) ==
            if EndsInBackslash(d) then None else Some([Num(s), Num(p), Raw(Unescape(None, Escape(d)))])
  {
    var u := Raw(Unescape(None, Escape(d)));
    assert [Num(p)] + [u] == [Num(p), u] && [Num(s)] + [Num(p), u] == [Num(s), Num(p), u];
  }

  /** A data message within the MTU survives the round trip exactly when its payload is clean. */
  lemma {:induction false} DataRoundTripIff(m: Message)
    requires m.Data? && MarshalSize(m) <= MTU
    ensures Decode(Encode(m)) == Some(m) <==> Clean(m.data)
  {
    AcceptedFits(m);
    DataDecoded(m);
    PayloadSurvivesIff(m.data);
  }

  // ---------- the wire ----------

  /** What of an encoded message fits the buffer a datagram is read into. */
  function Datagram(m: Message): Bytes {
    Encode(m)[..Min(MTU, |Encode(m)|)]
  }

  /** The message this program makes of another's. */
  function Received(m: Message): Option<Message> {
    Decode(Datagram(m))
  }

  /** Data that arrives as it was sent, or not at all. */
  predicate Undistorted(m: Message) {
    m.Data? ==> Clean(m.data) || EndsInBackslash(m.data) || |Encode(m)| > MTU
  }

  /** The start of an escaped payload has no delimiter. */
  lemma {:induction false} CutPayloadHasNoEnd(d: Bytes, n: nat)
    requires n <= |Escape(d)|
    ensures Unpack([RawKind], Escape(d)[..n]) == None
  {
    EscapeShape(d);
    var buf := Escape(d)[..n];
    forall j | 0 <= j < n ensures !Delimiter(buf, j) {
      assert buf[j] == Escape(d)[j];
    }
    NextSlashSkips(buf, 0, n);
    assert NextSlashFrom(buf, n) == -1;
  }

  /** The bytes of a data message: the numbers, the escaped payload, the closing slash. */
  lemma {:induction false} DataShape(m: Message)
    requires m.Data?
    ensures Encode(m) == DATA + (PackField(Num(m.session)) + (PackField(Num(m.pos)) + (Escape(m.data) + [SLASH])))
    ensures |PackField(Num(m.session))| <= 12 && |PackField(Num(m.pos))| <= 12
  {
    Int32Digits(m.session);
    Int32Digits(m.pos);
    PackOne(Raw(m.data));
    PackMore(Num(m.pos), [Raw(m.data)]);
    PackMore(Num(m.session), [Num(m.pos), Raw(m.data)]);
    assert [Num(m.pos)] + [Raw(m.data)] == [Num(m.pos), Raw(m.data)];
    assert [Num(m.session)] + [Num(m.pos), Raw(m.data)] == Fields(m);
  }

  lemma {:induction false} UnpackCut(s: Int32, p: Int32, cut: Bytes)
    requires Unpack([RawKind], cut) == None
    ensures Unpack([NumKind, NumKind, RawKind], PackField(Num(s)) + (PackField(Num(p)) + cut)) == None
  {
    UnpackNum(p, [NumKind, RawKind], cut);
    assert [NumKind, RawKind][1..] == [RawKind];
    UnpackNum(s, [NumKind, NumKind, RawKind], PackField(Num(p)) + cut);
    assert [NumKind, NumKind, RawKind][1..] == [NumKind, RawKind];
  }

  lemma PrefixOfConcat(a: Bytes, b: Bytes, n: nat)
    requires |a| <= n <= |a| + |b|
    ensures (a + b)[..n] == a + b[..n - |a|]
  {
  }

  /** The start of three pieces and a closing slash, cut before the slash. */
  lemma {:induction false} CutInThird(a: Bytes, s: Bytes, p: Bytes, e: Bytes, n: nat)
    requires |a| + |s| + |p| <= n <= |a| + |s| + |p| + |e|
    ensures (a + (s + (p + (e + [SLASH]))))[..n] == a + (s + (p + e[..n - |a| - |s| - |p|]))
  {
    PrefixOfConcat(a, s + (p + (e + [SLASH])), n);
    PrefixOfConcat(s, p + (e + [SLASH]), n - |a|);
    PrefixOfConcat(p, e + [SLASH], n - |a| - |s|);
    PrefixOfConcat(e, [SLASH], |e|);
    CutShorter(e, n - |a| - |s| - |p|);
  }

  lemma CutShorter(e: Bytes, n: nat)
    requires n <= |e|
    ensures (e + [SLASH])[..n] == e[..n]
  {
  }

  lemma {:induction false} CutDataIsDropped(m: Message, n: nat)
    requires m.Data? && n <= |Escape(m.data)|
    requires |DATA + (PackField(Num(m.session)) + (PackField(Num(m.pos)) + Escape(m.data)[..n]))| <= MTU
    ensures Decode(DATA + (PackField(Num(m.session)) + (PackField(Num(m.pos)) + Escape(m.data)[..n]))) == None
  {
    CutPayloadHasNoEnd(m.data, n);
    UnpackCut(m.session, m.pos, Escape(m.data)[..n]);
    DecodeBody(m, PackField(Num(m.session)) + (PackField(Num(m.pos)) + Escape(m.data)[..n]));
  }

  /** A message too long for a datagram loses its end, and with it the delimiter: it is dropped. */
  lemma {:induction false} OversizeIsDropped(m: Message)
    requires |Encode(m)| > MTU
    ensures Received(m) == None
  {
    if !m.Data? {
      ControlRoundTrip(m);
      AcceptedFits(m);
      assert false;
    } else {
      var n := DatagramCut(m);
      CutDataIsDropped(m, n);
    }
  }

  lemma {:induction false} DatagramCut(m: Message) returns (n: nat)
    requires m.Data? && |Encode(m)| > MTU
    ensures n <= |Escape(m.data)|
    ensures Datagram(m) == DATA + (PackField(Num(m.session)) + (PackField(Num(m.pos)) + Escape(m.data)[..n]))
  {
    DataShape(m);
    var s, p, e := PackField(Num(m.session)), PackField(Num(m.pos)), Escape(m.data);
    n := MTU - |DATA| - |s| - |p|;
    CutInThird(DATA, s, p, e, MTU);
  }

  lemma WholeDatagram(m: Message)
    requires |Encode(m)| <= MTU
    ensures Datagram(m) == Encode(m)
  {
  }

  /**
   * What the program receives is what was sent, or nothing, exactly for undistorted messages; it is
   * what was sent exactly when the message fits a datagram and a payload is clean.
   */
  lemma {:induction false} ReceivedIff(m: Message)
    ensures Received(m) == None || Received(m) == Some(m) <==> Undistorted(m)
    ensures Received(m) == Some(m) <==> |Encode(m)| <= MTU && (m.Data? ==> Clean(m.data))
  {
    if |Encode(m)| > MTU {
      OversizeIsDropped(m);
    } else {
      WholeDatagram(m);
      if m.Data? {
        DataDecoded(m);
        PayloadSurvivesIff(m.data);
      } else {
        ControlRoundTrip(m);
      }
    }
  }

  // ---------- a reader that follows the escaping ----------

  /** A backslash and the byte after it stand for that byte; the first other slash ends the payload. */
  function ProperPayload(s: Bytes): Option<(Bytes, Bytes)>
    decreases |s|
  {
    if s == [] then None
    else if s[0] == SLASH then Some(([], s[1..]))
    else if s[0] == BACKSLASH then
      if |s| == 1 then None else PrependByte(s[1], ProperPayload(s[2..]))
    else PrependByte(s[0], ProperPayload(s[1..]))
  }

  function PrependByte(b: Byte, r: Option<(Bytes, Bytes)>): Option<(Bytes, Bytes)> {
    match r
    case None => None
    case Some((d, rest)) => Some(([b] + d, rest))
  }

  /** Such a reader gets every payload this program writes, whatever is in it. */
  lemma {:induction false} ProperReaderReads(d: Bytes, rest: Bytes)
    ensures ProperPayload(Escape(d) + ([SLASH] + rest)) == Some((d, rest))
  {
    if d == [] {
      assert Escape(d) + ([SLASH] + rest) == [SLASH] + rest;
      assert ([SLASH] + rest)[1..] == rest;
    } else {
      var first := if Special(d[0]) then [BACKSLASH, d[0]] else [d[0]];
      var tail := Escape(d[1..]) + ([SLASH] + rest);
      ConcatAssoc(first, Escape(d[1..]), [SLASH] + rest);
      assert (first + tail)[|first|..] == tail;
      ProperReaderReads(d[1..], rest);
      assert [d[0]] + d[1..] == d;
    }
  }
}
