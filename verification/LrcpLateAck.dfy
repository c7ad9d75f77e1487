/**
 * A run of the service in which two accepted acks reach the sender in the wrong order, and stop the
 * server.  The client is honest, the network loses nothing, no line is too long and every packet fits.
 */
module LrcpLateAck {
  import opened Bytes
  import opened Common
  import opened LrcpCodec
  import opened LrcpSession
  import opened LrcpReceiver
  import opened LrcpNetwork

  // ---------- packet sizes ----------

  lemma {:induction false} PlainHasNoEscapes(d: Bytes)
    requires Plain(d)
    ensures EscapeCount(d) == 0
  {
    if d != [] {
      PlainHasNoEscapes(d[1..]);
    }
  }

  lemma {:induction false} ShortIsWhole(session: Int32, pos: Int32, d: Bytes)
    requires Plain(d) && |d| <= 900
    ensures ChunkLen(session, pos, d) == |d|
  {
    PlainHasNoEscapes(d);
    Int32Digits(session);
    Int32Digits(pos);
  }

  /** 1101 bytes are cut to 990, then to 891. */
  lemma {:induction false} LongIsCut(session: Int32, pos: Int32, d: Bytes)
    requires Plain(d) && |d| == 1101
    ensures ChunkLen(session, pos, d) == 891
  {
    PlainHasNoEscapes(d);
    PlainHasNoEscapes(d[..990]);
    ShortIsWhole(session, pos, d[..990][..891]);
  }

  // ---------- the run ----------

  /** 1100 bytes that need no escaping. */
  predicate LongLine(line: Bytes) {
    |line| == 1100 && Plain(line) && NEWLINE !in line
  }

  /** A long line, and an empty one. */
  function Stream(line: Bytes): Bytes {
    line + [NEWLINE] + [NEWLINE]
  }

  function Reply(line: Bytes): Bytes {
    Reverse(line) + [NEWLINE]
  }

  lemma {:induction false} StreamLines(line: Bytes)
    requires LongLine(line)
    ensures Lines(Stream(line)) == [line, []] && Residual(Stream(line)) == [] && Fits(Stream(line))
  {
    UnlinesCons(line, [[]]);
    UnlinesCons([], []);
    assert [line] + [[]] == [line, []];
    assert Unlines([line, []]) + [] == Stream(line);
    LinesUnique(Stream(line), [line, []], []);
  }

  lemma {:induction false} ReplyIsPlain(line: Bytes)
    requires LongLine(line)
    ensures |Reply(line)| == 1101 && Plain(Reply(line))
  {
    forall i | 0 <= i < |Reply(line)| ensures !Special(Reply(line)[i]) {
      ReverseAt(line, i);
    }
    ReverseAt(line, 0);
  }

  /** The sender has sent nothing and heard nothing. */
  ghost predicate Unused(w: World) {
    && !w.server.closed && !w.server.crashed && w.buf == [] && w.initLen == w.curPos == w.burstPos == 0
    && w.server.pending == [] && w.server.totalOut == 0 && w.client == []
    && |w.clientSent| == 2 && |w.server.sent| == 2
  }

  function First(line: Bytes, session: Int32): Message
    requires LongLine(line)
  {
    Data(session, 0, Stream(line)[..891])
  }

  function Second(line: Bytes, session: Int32): Message
    requires LongLine(line)
  {
    Data(session, 891, Stream(line)[891..])
  }

  lemma {:induction false} ShortPlainArrives(session: Int32, pos: Int32, d: Bytes)
    requires Plain(d) && |d| <= 900
    ensures var m := Data(session, pos, d); Received(m) == Some(m) && Undistorted(m)
  {
    var m := Data(session, pos, d);
    PlainHasNoEscapes(d);
    Int32Digits(session);
    Int32Digits(pos);
    AcceptedFits(m);
    ReceivedIff(m);
  }

  lemma {:induction false} SliceIsHonest(stream: Bytes, session: Int32, p: nat, n: nat)
    requires p <= n <= |stream| < 0x8000_0000 && Undistorted(Data(session, p, stream[p..n]))
    ensures HonestData(stream, Data(session, p, stream[p..n]))
  {
  }

  lemma {:induction false} FirstArrives(line: Bytes, session: Int32)
    requires LongLine(line)
    ensures var m := First(line, session); Received(m) == Some(m) && HonestData(Stream(line), m)
  {
    var s := Stream(line);
    assert s[0..891] == s[..891];
    ShortPlainArrives(session, 0, s[0..891]);
    SliceIsHonest(s, session, 0, 891);
  }

  lemma {:induction false} SecondArrives(line: Bytes, session: Int32)
    requires LongLine(line)
    ensures var m := Second(line, session); Received(m) == Some(m) && HonestData(Stream(line), m)
  {
    var s := Stream(line);
    assert s[891..1102] == s[891..];
    ShortPlainArrives(session, 891, s[891..1102]);
    SliceIsHonest(s, session, 891, 1102);
  }

  lemma {:induction false} FirstHalfCut(line: Bytes, session: Int32)
    requires LongLine(line)
    ensures var s := Stream(line);
      var e := OnData(Fresh(session), 0, s[..891]);
      !e.crashed && HasCut(s, e, []) && e.totalIn == |s[..891]| == 891 && |e.sent| == 1
  {
    var s := Stream(line);
    StreamLines(line);
    assert SliceOf(s, 0, s[..891]) && s[..0] == [];
    NoNewline([], []);
    DataKeepsCut(s, Fresh(session), [], 0, s[..891]);
  }

  lemma {:induction false} SecondHalfCut(line: Bytes, e: Endpoint)
    requires LongLine(line) && !e.crashed && HasCut(Stream(line), e, []) && e.totalIn == 891 && |e.sent| == 1
    ensures var e' := OnData(e, 891, Stream(line)[891..]);
      !e'.crashed && |e'.sent| == 2 && e'.incoming == [line, []]
  {
    var s := Stream(line);
    StreamLines(line);
    assert SliceOf(s, 891, s[891..]);
    DataKeepsCut(s, e, [], 891, s[891..]);
    var e' := OnData(e, 891, s[891..]);
    assert s[..1102] == s && [] + e'.incoming == e'.incoming;
  }

  /** The two packets leave the receiver with both lines. */
  lemma {:induction false} BothLinesCut(line: Bytes, session: Int32)
    requires LongLine(line)
    ensures var s, e := Stream(line), Fresh(session);
      var e1 := OnData(e, 0, s[..891]);
      var e2 := OnData(e1, 891, s[891..]);
      !e1.crashed && !e2.crashed && |e2.sent| == 2 && e2.incoming == [line, []]
  {
    FirstHalfCut(line, session);
    SecondHalfCut(line, OnData(Fresh(session), 0, Stream(line)[..891]));
  }

  lemma {:induction false} ServerHearsData(s: Bytes, w0: World, v: World, i: nat, m: Message) returns (w: World)
    requires Reaches(s, w0, v) && !v.server.closed && !v.server.crashed && i < |v.clientSent|
    requires v.clientSent[i] == m && m.Data? && Received(m) == Some(m)
    ensures Reaches(s, w0, w) && w == Hear(v, Some(m))
  {
    w := Next(s, w0, v, ServerRecv(i));
  }

  lemma {:induction false} ClientSends(s: Bytes, w0: World, v: World, m: Message) returns (w: World)
    requires Reaches(s, w0, v) && ClientMaySend(v, m) && HonestData(s, m)
    ensures Reaches(s, w0, w) && w == v.(clientSent := v.clientSent + [m])
  {
    w := Next(s, w0, v, ClientSend(m));
  }

  lemma {:induction false} BothLinesReceived(line: Bytes, session: Int32) returns (w: World)
    requires LongLine(line)
    ensures Reaches(Stream(line), Init(session), w) && Unused(w) && w.inHand.None?
    ensures w.server.incoming == [line, []] && w.outgoing == []
  {
    var w0, s := Init(session), Stream(line);
    Start(Stream(line), w0);
    FirstArrives(line, session);
    SecondArrives(line, session);
    w := ClientSends(Stream(line), w0, w0, First(line, session));
    w := ClientSends(Stream(line), w0, w, Second(line, session));
    BothLinesCut(line, session);
    DataTouchesReceiver(Fresh(session), 0, s[..891]);
    DataTouchesReceiver(OnData(Fresh(session), 0, s[..891]), 891, s[891..]);
    w := ServerHearsData(Stream(line), w0, w, 0, First(line, session));
    w := ServerHearsData(Stream(line), w0, w, 1, Second(line, session));
  }

  lemma {:induction false} BothLinesAnswered(line: Bytes, session: Int32) returns (w: World)
    requires LongLine(line)
    ensures Reaches(Stream(line), Init(session), w) && Unused(w) && w.outgoing == [Reverse(line), []]
  {
    var w0 := Init(session);
    w := BothLinesReceived(line, session);
    w := AnswersFirst(Stream(line), w0, w);
    w := AnswersFirst(Stream(line), w0, w);
    assert w.outgoing == [Reverse(line), Reverse([])];
  }

  lemma {:induction false} AnswersFirst(s: Bytes, w0: World, v: World) returns (w: World)
    requires Reaches(s, w0, v) && Unused(v) && v.inHand.None? && v.server.incoming != []
    ensures Reaches(s, w0, w) && Unused(w) && w.inHand.None? && w.server.incoming == v.server.incoming[1..]
    ensures w.outgoing == v.outgoing + [Reverse(v.server.incoming[0])]
  {
    w := Next(s, w0, v, HandlerTake);
    w := Next(s, w0, w, HandlerPut);
  }

  /** The reply is sent in two packets, and the client has received neither. */
  ghost predicate TwoPackets(line: Bytes, w: World, session: Int32) {
    && !w.server.closed && !w.server.crashed && w.buf == Reply(line) && w.initLen == w.curPos == 0 && w.burstPos == 1101
    && w.server.shouldBeSent == |Reply(line)| == 1101
    && w.server.pending == [] && w.server.totalOut == 0 && w.client == [] && w.outgoing == [[]]
    && |w.clientSent| == 2 && |w.server.sent| == 4 && w.server.session == session
    && w.server.sent[2] == Data(session, 0, Reply(line)[..891])
    && w.server.sent[3] == Data(session, 891, Reply(line)[891..])
  }

  lemma {:induction false} SendsPacket(s: Bytes, w0: World, v: World, n: nat) returns (w: World)
    requires Reaches(s, w0, v) && !v.server.closed && !v.server.crashed && v.initLen == v.curPos == 0 <= v.burstPos
    requires v.burstPos < |v.buf| < 0x8000_0000
    requires ChunkLen(v.server.session, v.burstPos, v.buf[v.burstPos..]) == n
    ensures Reaches(s, w0, w) && n <= |v.buf| - v.burstPos
    ensures w == Sent(v, Data(v.server.session, v.burstPos, v.buf[v.burstPos..][..n]))
  {
    w := Next(s, w0, v, SendChunk);
  }

  lemma {:induction false} TakesReply(w0: World, v: World, line: Bytes) returns (w: World)
    requires LongLine(line) && Reaches(Stream(line), w0, v) && Unused(v) && v.outgoing == [Reverse(line), []]
    ensures |Reply(line)| == 1101 && Reaches(Stream(line), w0, w)
    ensures w == TakeNext(v) && w.buf == Reply(line) && w.outgoing == [[]]
  {
    ReplyIsPlain(line);
    w := Next(Stream(line), w0, v, TakeBuffer);
  }

  lemma {:induction false} SentInTwo(line: Bytes, w0: World, v: World) returns (w: World)
    requires LongLine(line) && Reaches(Stream(line), w0, v) && Unused(v) && v.outgoing == [Reverse(line), []]
    ensures Reaches(Stream(line), w0, w) && TwoPackets(line, w, v.server.session)
  {
    ReplyIsPlain(line);
    var session, buf := v.server.session, Reply(line);
    w := TakesReply(w0, v, line);
    assert buf[0..] == buf;
    LongIsCut(session, 0, buf);
    w := SendsPacket(Stream(line), w0, w, 891);
    ShortIsWhole(session, 891, buf[891..]);
    assert buf[891..][..210] == buf[891..];
    w := SendsPacket(Stream(line), w0, w, 210);
  }

  /** Both acks are accepted and neither has reached the sender. */
  ghost predicate TwoAcks(line: Bytes, w: World) {
    && !w.server.closed && !w.server.crashed && w.buf == Reply(line) && w.initLen == w.curPos == 0 && w.burstPos == 1101
    && w.server.pending == [891, 1101] && w.server.totalOut == 1101 && w.outgoing == [[]]
  }

  /** The client has both packets and has acknowledged them one after the other. */
  ghost predicate BothHeard(line: Bytes, w: World, session: Int32) {
    && !w.server.closed && !w.server.crashed && w.buf == Reply(line) && w.initLen == w.curPos == 0 && w.burstPos == 1101
    && w.server.shouldBeSent == 1101
    && w.server.pending == [] && w.server.totalOut == 0 && w.outgoing == [[]]
    && |w.clientSent| == 4 && w.clientSent[2] == Ack(session, 891) && w.clientSent[3] == Ack(session, 1101)
  }

  lemma {:induction false} ClientHearsBoth(line: Bytes, w0: World, v: World, session: Int32) returns (w: World)
    requires LongLine(line) && Reaches(Stream(line), w0, v) && TwoPackets(line, v, session)
    ensures Reaches(Stream(line), w0, w) && BothHeard(line, w, session)
  {
    ReplyIsPlain(line);
    w := Next(Stream(line), w0, v, ClientRecv(2));
    assert w.client == Reply(line)[..891];
    w := Next(Stream(line), w0, w, ClientRecv(3));
    assert w.client == Reply(line)[..891] + Reply(line)[891..];
  }

  lemma {:induction false} ServerHearsAck(s: Bytes, w0: World, v: World, i: nat, session: Int32, length: Int32)
    returns (w: World)
    requires Reaches(s, w0, v) && !v.server.closed && !v.server.crashed && i < |v.clientSent|
    requires v.clientSent[i] == Ack(session, length) && v.server.totalOut < length <= v.server.shouldBeSent
    ensures Reaches(s, w0, w)
    ensures w == v.(server := v.server.(totalOut := length, pending := v.server.pending + [length]))
  {
    AckArrives(session, length);
    AckHeard(v, session, length);
    w := Next(s, w0, v, ServerRecv(i));
  }

  lemma {:induction false} BothAcked(line: Bytes, w0: World, v: World, session: Int32) returns (w: World)
    requires LongLine(line) && Reaches(Stream(line), w0, v) && TwoPackets(line, v, session)
    ensures Reaches(Stream(line), w0, w) && TwoAcks(line, w)
  {
    w := ClientHearsBoth(line, w0, v, session);
    w := ServerHearsAck(Stream(line), w0, w, 2, session, 891);
    w := ServerHearsAck(Stream(line), w0, w, 3, session, 1101);
  }

  /** The second ack is heard first; the sender moves on to the next reply, and then hears the first one. */
  lemma {:induction false} HeardInWrongOrder(line: Bytes, w0: World, v: World) returns (w: World)
    requires LongLine(line) && Reaches(Stream(line), w0, v) && TwoAcks(line, v)
    ensures Reaches(Stream(line), w0, w) && w.server.crashed
  {
    ReplyIsPlain(line);
    w := Next(Stream(line), w0, v, SignalAck(1));
    assert w.server.pending == [891];
    w := Next(Stream(line), w0, w, TakeBuffer);
    assert w.buf == [NEWLINE] && w.buf[0..] == w.buf && w.buf[..1] == w.buf;
    ShortIsWhole(w.server.session, 1101, w.buf);
    w := Next(Stream(line), w0, w, SendChunk);
    w := Next(Stream(line), w0, w, SignalAck(0));
    assert w.curPos == -210;
    w := Next(Stream(line), w0, w, SendChunk);
  }

  /** An honest client, lines that fit and packets that arrive: the order of two acks stops the server. */
  lemma {:induction false} WrongOrderStops(line: Bytes, session: Int32)
    requires LongLine(line)
    ensures Fits(Stream(line))
    ensures exists steps ::
      Legal(Init(session), steps) && SendsFrom(Stream(line), steps) && Run(Init(session), steps).server.crashed
  {
    StreamLines(line);
    var w0 := Init(session);
    var w := BothLinesAnswered(line, session);
    w := SentInTwo(line, w0, w);
    w := BothAcked(line, w0, w, w.server.session);
    w := HeardInWrongOrder(line, w0, w);
    var steps :| Legal(w0, steps) && SendsFrom(Stream(line), steps) && Run(w0, steps) == w;
  }
}
