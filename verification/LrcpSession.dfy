/**
 * One LRCP session: the receive rule, the line cutter, the acknowledgement rule and the send burst.
 * `Endpoint` is the value of a session; `Session` is the object whose methods update it in place.
 */
module LrcpSession {
  import opened Bytes
  import opened Common
  import opened LrcpCodec

  /** The capacity of the line buffer. */
  const MAX_LINE := 10_000

  /** int32 arithmetic. */
  function Wrap32(x: int): Int32 {
    if -0x8000_0000 <= x < 0x8000_0000 then x
    else (x + 0x8000_0000) % 0x1_0000_0000 - 0x8000_0000
  }

  datatype Endpoint = Endpoint(
    session: Int32,
    totalIn: Int32,          // lenTotalIncoming
    buf: Bytes,              // incomingBuf
    incoming: seq<Bytes>,    // incomingChan
    totalOut: Int32,         // lenTotalOutgoing
    shouldBeSent: Int32,
    pending: seq<Int32>,     // accepted acks on their way to the sender, through signalAck
    sent: seq<Message>,      // messages handed to the dispatcher
    misbehaved: bool,        // the session was closed because of an ack beyond shouldBeSent
    closed: bool,
    crashed: bool)           // a slice expression went out of range

  /** A session at its start. */
  function Fresh(session: Int32): Endpoint {
    Endpoint(session, 0, [], [], 0, 0, [], [], false, false, false)
  }

  // ---------- the receive rule ----------

  predicate Rejected(total: Int32, pos: Int32, data: Bytes) {
    total < pos || Wrap32(total - pos) >= |data|
  }

  /** Every line and the residual stay within the line buffer. */
  predicate Fits(s: Bytes) {
    AllFit(Lines(s)) && |Residual(s)| <= MAX_LINE
  }

  predicate AllFit(lines: seq<Bytes>) {
    forall i :: 0 <= i < |lines| ==> |lines[i]| <= MAX_LINE
  }

  /** New bytes: cut them, count them, acknowledge. */
  function Accept(e: Endpoint, tail: Bytes): Endpoint {
    var total := Wrap32(e.totalIn + |tail|);
    if !Fits(e.buf + tail) then e.(crashed := true)
    else e.(totalIn := total,
            incoming := e.incoming + Lines(e.buf + tail),
            buf := Residual(e.buf + tail),
            sent := e.sent + [Ack(e.session, total)])
  }

  function OnData(e: Endpoint, pos: Int32, data: Bytes): Endpoint {
    if Rejected(e.totalIn, pos, data) then
      e.(sent := e.sent + [Ack(e.session, e.totalIn)])
    else if Wrap32(e.totalIn - pos) < 0 then
      e.(crashed := true)
    else
      Accept(e, data[Wrap32(e.totalIn - pos)..])
  }

  function OnAck(e: Endpoint, length: Int32): Endpoint {
    if length <= e.totalOut then e
    else if length > e.shouldBeSent then
      e.(misbehaved := true, closed := true, sent := e.sent + [Close(e.session)])
    else e.(totalOut := length, pending := e.pending + [length])
  }

  function OnMessage(e: Endpoint, m: Message): Endpoint {
    match m
    case Connect(_) => e.(sent := e.sent + [Ack(e.session, e.totalIn)])
    case Data(_, pos, data) => OnData(e, pos, data)
    case Ack(_, length) => OnAck(e, length)
    case Close(_) => e.(closed := true, sent := e.sent + [Close(e.session)])
  }

  /** What the decoder makes of a datagram is handled, or the datagram is dropped. */
  function Handle(e: Endpoint, received: Option<Message>): Endpoint {
    match received
    case None => e
    case Some(m) => OnMessage(e, m)
  }

  function Deliver(e: Endpoint, m: Message): Endpoint {
    Handle(e, Received(m))
  }

  /** The bytes that a message adds to those counted. */
  function NewBytes(e: Endpoint, m: Message): Bytes {
    if !m.Data? || Rejected(e.totalIn, m.pos, m.data) || Wrap32(e.totalIn - m.pos) < 0 then []
    else
      var tail := m.data[Wrap32(e.totalIn - m.pos)..];
      if Fits(e.buf + tail) then tail else []
  }

  function HandledBytes(e: Endpoint, received: Option<Message>): Bytes {
    match received
    case None => []
    case Some(m) => NewBytes(e, m)
  }

  /** Data touches only the receiving half of a session, and is answered by at most one ack. */
  lemma {:induction false} DataTouchesReceiver(e: Endpoint, pos: Int32, data: Bytes)
    ensures var e' := OnData(e, pos, data);
      && e'.session == e.session && e'.totalOut == e.totalOut && e'.shouldBeSent == e.shouldBeSent
      && e'.pending == e.pending && e'.misbehaved == e.misbehaved && e'.closed == e.closed
      && (e'.sent == e.sent || exists n :: e'.sent == e.sent + [Ack(e.session, n)])
  {
  }

  /** What cutting the rest of the input will have produced: all lines, the residual, no overflow. */
  ghost function Outcome(lines: seq<Bytes>, s: Bytes): (seq<Bytes>, Bytes, bool) {
    (lines + Lines(s), Residual(s), Fits(s))
  }

  lemma AllFitCons(line: Bytes, lines: seq<Bytes>)
    ensures AllFit([line] + lines) <==> |line| <= MAX_LINE && AllFit(lines)
  {
    var all := [line] + lines;
    assert all[0] == line;
    assert forall i :: 0 <= i < |lines| ==> lines[i] == all[i + 1];
  }

  /** One turn of the line cutter: the next newline ends the buffered line. */
  lemma CutAtNewline(lines: seq<Bytes>, buf: Bytes, rest: Bytes, k: nat)
    requires NEWLINE !in buf && k < |rest| && NEWLINE !in rest[..k] && rest[k] == NEWLINE
    ensures |buf| + k > MAX_LINE ==> !Fits(buf + rest)
    ensures |buf| + k <= MAX_LINE ==>
            Outcome(lines, buf + rest) == Outcome(lines + [buf + rest[..k]], rest[k + 1..])
  {
    var s, n, line := buf + rest, |buf| + k, buf + rest[..k];
    assert s[..n] == line;
    IndexOfUnique(s, NEWLINE, n);
    assert s[n + 1..] == rest[k + 1..];
    AllFitCons(line, Lines(rest[k + 1..]));
    ConcatAssoc(lines, [line], Lines(rest[k + 1..]));
  }

  lemma NoNewline(lines: seq<Bytes>, s: Bytes)
    requires NEWLINE !in s
    ensures Outcome(lines, s) == (lines, s, |s| <= MAX_LINE)
  {
    LinesNone(s);
    assert lines + [] == lines;
  }

  // ---------- the send burst ----------

  /** How much of `data` goes into the next packet: it is cut to nine tenths until the packet fits. */
  function ChunkLen(session: Int32, pos: Int32, data: Bytes): (n: nat)
    ensures n <= |data|
    decreases |data|
  {
    if data == [] || MarshalSize(Data(session, pos, data)) <= MTU then |data|
    else ChunkLen(session, pos, data[..Min(MTU, |data| * 9 / 10)])
  }

  /** Escaping at most doubles a payload. */
  lemma {:induction false} EscapeAtMostDoubles(d: Bytes)
    ensures EscapeCount(d) <= |d|
  {
    if d != [] {
      EscapeAtMostDoubles(d[1..]);
    }
  }

  lemma OversizePayload(session: Int32, pos: Int32, data: Bytes)
    requires MarshalSize(Data(session, pos, data)) > MTU
    ensures |data| >= 484
  {
    Int32Digits(session);
    Int32Digits(pos);
    EscapeAtMostDoubles(data);
  }

  /** The cut always ends with a non-empty payload whose packet Marshal accepts. */
  lemma {:induction false} ChunkFits(session: Int32, pos: Int32, data: Bytes)
    requires data != []
    ensures var n := ChunkLen(session, pos, data);
            0 < n <= |data| && MarshalSize(Data(session, pos, data[..n])) <= MTU
    decreases |data|
  {
    if MarshalSize(Data(session, pos, data)) <= MTU {
      assert data[..|data|] == data;
    } else {
      OversizePayload(session, pos, data);
      var k := Min(MTU, |data| * 9 / 10);
      ChunkFits(session, pos, data[..k]);
      var n := ChunkLen(session, pos, data[..k]);
      assert data[..k][..n] == data[..n];
    }
  }

  /** What is cut goes from a payload whose packet is too long to nine tenths of it, and never above 999 bytes. */
  lemma {:induction false} CutFrom(session: Int32, pos: Int32, data: Bytes) returns (m: nat)
    requires ChunkLen(session, pos, data) < |data|
    ensures ChunkLen(session, pos, data) < m <= |data| && MarshalSize(Data(session, pos, data[..m])) > 999
    ensures ChunkLen(session, pos, data) == Min(999, m - (m + 9) / 10)
    decreases |data|
  {
    OversizePayload(session, pos, data);
    var k := Min(MTU, |data| * 9 / 10);
    if ChunkLen(session, pos, data[..k]) < k {
      m := CutFrom(session, pos, data[..k]);
      assert data[..k][..m] == data[..m];
    } else {
      m := |data|;
      assert data[..m] == data;
    }
  }

  function Payload(m: Message): Bytes {
    if m.Data? then m.data else []
  }

  function Payloads(msgs: seq<Message>): Bytes {
    if msgs == [] then [] else Payloads(msgs[..|msgs| - 1]) + Payload(msgs[|msgs| - 1])
  }

  /** A packet of this session that Marshal accepts and that fits the datagram buffer. */
  ghost predicate Sendable(session: Int32, m: Message) {
    m.Data? && m.session == session && m.data != [] && MarshalSize(m) <= MTU && |Encode(m)| <= MTU
  }

  /** `msgs` carries exactly `data`, from stream position `pos` on, in non-empty contiguous packets. */
  ghost predicate Partition(session: Int32, pos: int, data: Bytes, msgs: seq<Message>) {
    && (forall i :: 0 <= i < |msgs| ==>
          Sendable(session, msgs[i]) && msgs[i].pos == pos + |Payloads(msgs[..i])|)
    && Payloads(msgs) == data
  }

  lemma PartitionSnoc(session: Int32, pos: int, data: Bytes, msgs: seq<Message>, m: Message)
    requires Partition(session, pos, data, msgs)
    requires Sendable(session, m) && m.pos == pos + |data|
    ensures Partition(session, pos, data + m.data, msgs + [m])
  {
    var all := msgs + [m];
    assert all[..|msgs|] == msgs;
    forall i | 0 <= i < |all| ensures Sendable(session, all[i]) && all[i].pos == pos + |Payloads(all[..i])| {
      assert i < |msgs| ==> all[..i] == msgs[..i];
    }
  }

  /** The inner loop of the burst: shrink the payload until its packet fits. */
  method NextChunk(session: Int32, pos: Int32, rest: Bytes) returns (m: Message)
    requires rest != []
    ensures m == Data(session, pos, rest[..ChunkLen(session, pos, rest)])
    ensures Sendable(session, m)
  {
    ChunkFits(session, pos, rest);
    var data := rest;
    var size := DataMarshalSize(session, pos, data);
    while size > MTU
      invariant data == rest[..|data|] && |data| <= |rest| && data != []
      invariant size == MarshalSize(Data(session, pos, data))
      invariant ChunkLen(session, pos, data) == ChunkLen(session, pos, rest)
      decreases |data|
    {
      OversizePayload(session, pos, data);
      var maxLen := |data| * 9 / 10;
      data := data[..Min(MTU, maxLen)];
      size := DataMarshalSize(session, pos, data);
    }
    m := Data(session, pos, data);
    AcceptedFits(m);
  }

  lemma BurstStep(session: Int32, pos: int, suffix: Bytes, done: nat, msgs: seq<Message>, m: Message)
    requires done <= |suffix| && Partition(session, pos, suffix[..done], msgs)
    requires Sendable(session, m) && m.pos == pos + done && m.data <= suffix[done..]
    ensures done + |m.data| <= |suffix|
    ensures Partition(session, pos, suffix[..done + |m.data|], msgs + [m])
  {
    assert suffix[..done + |m.data|] == suffix[..done] + m.data;
    PartitionSnoc(session, pos, suffix[..done], msgs, m);
  }

  /** One packet of a burst, after the first `done` bytes have gone. */
  method NextInBurst(session: Int32, pos: Int32, suffix: Bytes, done: nat, ghost msgs: seq<Message>)
    returns (m: Message)
    requires 0 <= pos && pos + |suffix| < 0x8000_0000
    requires done < |suffix| && Partition(session, pos, suffix[..done], msgs)
    ensures m.Data? && 0 < |m.data| <= |suffix| - done
    ensures Partition(session, pos, suffix[..done + |m.data|], msgs + [m])
  {
    m := NextChunk(session, pos + done, suffix[done..]);
    BurstStep(session, pos, suffix, done, msgs, m);
  }

  /** The loop of the burst, over the suffix it sends. */
  method SendAll(session: Int32, pos: Int32, suffix: Bytes) returns (msgs: seq<Message>)
    requires 0 <= pos && pos + |suffix| < 0x8000_0000
    ensures Partition(session, pos, suffix, msgs)
  {
    msgs := [];
    var burstPos := 0;
    while burstPos < |suffix|
      invariant 0 <= burstPos <= |suffix|
      invariant Partition(session, pos, suffix[..burstPos], msgs)
    {
      var m := NextInBurst(session, pos, suffix, burstPos, msgs);
      burstPos := burstPos + |m.data|;
      msgs := msgs + [m];
    }
    assert suffix[..burstPos] == suffix;
  }

  /** One burst over the unacknowledged suffix of the outgoing buffer. */
  method Burst(session: Int32, initLen: Int32, buf: Bytes, curPos: nat) returns (msgs: seq<Message>)
    requires 0 <= initLen && curPos <= |buf| && initLen + |buf| < 0x8000_0000
    ensures Partition(session, initLen + curPos, buf[curPos..], msgs)
  {
    msgs := SendAll(session, initLen + curPos, buf[curPos..]);
  }

  // ---------- the session object ----------

  class Session {
    const session: Int32
    var lenTotalIncoming: Int32
    var lenTotalOutgoing: Int32
    var shouldBeSent: Int32
    var incomingChan: seq<Bytes>
    var incomingBuf: Bytes
    var signalAck: seq<Int32>
    var dispatched: seq<Message>
    var misbehaved: bool
    var closed: bool
    var crashed: bool

    function View(): Endpoint
      reads this
    {
      Endpoint(session, lenTotalIncoming, incomingBuf, incomingChan, lenTotalOutgoing, shouldBeSent,
               signalAck, dispatched, misbehaved, closed, crashed)
    }

    ghost predicate Valid()
      reads this
    {
      NEWLINE !in incomingBuf && |incomingBuf| <= MAX_LINE
    }

    constructor (session: Int32)
      ensures Valid()
      ensures View() == Fresh(session)
    {
      this.session := session;
      lenTotalIncoming, lenTotalOutgoing, shouldBeSent := 0, 0, 0;
      incomingChan, incomingBuf, signalAck, dispatched := [], [], [], [];
      misbehaved, closed, crashed := false, false, false;
    }

    /** Cuts the bytes into lines; `ok` is false when a line outgrows the buffer, which stops the program. */
    method ReadNewLineFromMessage(data: Bytes) returns (ok: bool)
      requires Valid()
      modifies this`incomingBuf, this`incomingChan
      ensures ok <==> Fits(old(incomingBuf) + data)
      ensures ok ==> Valid()
      ensures ok ==> incomingChan == old(incomingChan) + Lines(old(incomingBuf) + data)
      ensures ok ==> incomingBuf == Residual(old(incomingBuf) + data)
    {
      var curPos := 0;
      assert data[0..] == data;
      while curPos < |data|
        invariant Valid() && 0 <= curPos <= |data|
        invariant Outcome(incomingChan, incomingBuf + data[curPos..]) ==
                  Outcome(old(incomingChan), old(incomingBuf) + data)
      {
        var newLinePos, foundNewLine := FindNewLine(data, curPos);
        var line := data[curPos..newLinePos];
        if foundNewLine {
          CutHere(incomingChan, incomingBuf, data, curPos, newLinePos);
        } else {
          assert data[curPos..] == line;
          NoNewline(incomingChan, incomingBuf + line);
        }
        if |incomingBuf| + |line| > MAX_LINE {
          return false;
        }
        incomingBuf := incomingBuf + line;
        curPos := newLinePos;
        if foundNewLine {
          incomingChan := incomingChan + [incomingBuf];
          incomingBuf := [];
          curPos := curPos + 1;
        }
        assert foundNewLine ==> incomingBuf + data[curPos..] == data[curPos..];
        assert !foundNewLine ==> incomingBuf + data[curPos..] == incomingBuf;
      }
      assert incomingBuf + data[curPos..] == incomingBuf;
      NoNewline(incomingChan, incomingBuf);
      return true;
    }

    /** A data message: drop gaps and repeats, trim the overlap, cut lines, acknowledge. */
    method HandleData(pos: Int32, data: Bytes)
      requires Valid() && !crashed
      modifies this
      ensures crashed == OnData(old(View()), pos, data).crashed
      ensures !crashed ==> Valid() && View() == OnData(old(View()), pos, data)
    {
      if lenTotalIncoming < pos || Wrap32(lenTotalIncoming - pos) >= |data| {
        Dispatch(Ack(session, lenTotalIncoming));
        return;
      }
      var start := Wrap32(lenTotalIncoming - pos);
      if start < 0 {
        crashed := true;
        return;
      }
      var tail := data[start..];
      lenTotalIncoming := Wrap32(lenTotalIncoming + |tail|);
      var ok := ReadNewLineFromMessage(tail);
      if !ok {
        crashed := true;
        return;
      }
      Dispatch(Ack(session, lenTotalIncoming));
    }

    /** An acknowledgement: ignore old ones, close on one beyond what was sent, signal the sender. */
    method HandleAck(length: Int32)
      requires Valid()
      modifies this
      ensures Valid() && View() == OnAck(old(View()), length)
      ensures length <= old(lenTotalOutgoing) ==> View() == old(View())
      ensures length > Max(old(lenTotalOutgoing), old(shouldBeSent)) ==>
        View() == old(View()).(misbehaved := true, closed := true, sent := old(dispatched) + [Close(session)])
    {
      if length <= lenTotalOutgoing {
        return;
      }
      if length > shouldBeSent {
        misbehaved := true;
        CloseSession();
        return;
      }
      lenTotalOutgoing := length;
      signalAck := signalAck + [length];
    }

    method HandleIncoming(m: Message)
      requires Valid() && !crashed
      modifies this
      ensures crashed == OnMessage(old(View()), m).crashed
      ensures !crashed ==> Valid() && View() == OnMessage(old(View()), m)
      ensures m.Connect? ==> View() == old(View()).(sent := old(dispatched) + [Ack(session, old(lenTotalIncoming))])
      ensures m.Data? && !crashed ==> dispatched == old(dispatched) + [Ack(session, lenTotalIncoming)]
      ensures m.Close? ==> View() == old(View()).(closed := true, sent := old(dispatched) + [Close(session)])
    {
      match m {
        case Connect(_) =>
          Dispatch(Ack(session, lenTotalIncoming));
        case Data(_, pos, data) =>
          HandleData(pos, data);
        case Ack(_, length) =>
          HandleAck(length);
        case Close(_) =>
          CloseSession();
      }
    }

    method Dispatch(m: Message)
      modifies this`dispatched
      ensures dispatched == old(dispatched) + [m]
    {
      dispatched := dispatched + [m];
    }

    method CloseSession()
      modifies this`closed, this`dispatched
      ensures closed && dispatched == old(dispatched) + [Close(session)]
    {
      closed := true;
      Dispatch(Close(session));
    }
  }

  lemma CutHere(lines: seq<Bytes>, buf: Bytes, data: Bytes, curPos: nat, k: nat)
    requires curPos <= k < |data| && NEWLINE !in buf && NEWLINE !in data[curPos..k] && data[k] == NEWLINE
    ensures |buf| + (k - curPos) > MAX_LINE ==> !Fits(buf + data[curPos..])
    ensures |buf| + (k - curPos) <= MAX_LINE ==>
            Outcome(lines, buf + data[curPos..]) == Outcome(lines + [buf + data[curPos..k]], data[k + 1..])
  {
    var rest, n := data[curPos..], k - curPos;
    assert rest[..n] == data[curPos..k];
    assert rest[n + 1..] == data[k + 1..];
    CutAtNewline(lines, buf, rest, n);
  }

  /** The scan for the next newline from `curPos` on. */
  method FindNewLine(data: Bytes, curPos: nat) returns (newLinePos: nat, found: bool)
    requires curPos < |data|
    ensures curPos <= newLinePos <= |data| && NEWLINE !in data[curPos..newLinePos]
    ensures found <==> newLinePos < |data|
    ensures found ==> data[newLinePos] == NEWLINE
  {
    newLinePos := curPos;
    while newLinePos < |data|
      invariant curPos <= newLinePos <= |data| && NEWLINE !in data[curPos..newLinePos]
    {
      if data[newLinePos] == NEWLINE {
        return newLinePos, true;
      }
      newLinePos := newLinePos + 1;
    }
    return newLinePos, false;
  }
}
