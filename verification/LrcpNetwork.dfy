/**
 * The line-reversal service end to end: a client, a server session with its handler and sender
 * goroutines, and a network that may lose, repeat and reorder every message.  A message once sent
 * can be delivered at any later time, any number of times, or never.  What reaches the server goes
 * through a datagram and the server's own decoder; the client reads packets as ProperReaderReads says.
 */
module LrcpNetwork {
  import opened Bytes
  import opened Common
  import opened LrcpCodec
  import opened LrcpSession
  import opened LrcpReceiver

  // ---------- the handler ----------

  function Reverse(s: Bytes): Bytes {
    if s == [] then [] else Reverse(s[1..]) + [s[0]]
  }

  lemma {:induction false} ReverseAt(s: Bytes, k: nat)
    ensures |Reverse(s)| == |s|
    ensures k < |s| ==> Reverse(s)[k] == s[|s| - 1 - k]
  {
    if s != [] {
      ReverseAt(s[1..], k);
    }
  }

  /** The handler writes the bytes of the line from its end to its front; an empty line gives nothing. */
  method ReverseLine(buf: Bytes) returns (out: Bytes)
    ensures out == Reverse(buf)
  {
    out := [];
    for idx := 0 to |buf|
      invariant |out| == idx
      invariant forall k :: 0 <= k < idx ==> out[k] == buf[|buf| - 1 - k]
    {
      out := out + [buf[|buf| - 1 - idx]];
    }
    forall k | 0 <= k < |buf| ensures |Reverse(buf)| == |buf| && Reverse(buf)[k] == out[k] {
      ReverseAt(buf, k);
    }
    ReverseAt(buf, 0);
  }

  function Reversed(lines: seq<Bytes>): seq<Bytes> {
    if lines == [] then [] else [Reverse(lines[0])] + Reversed(lines[1..])
  }

  /** What the service owes its client for these lines: each reversed, each with its newline. */
  function Replies(lines: seq<Bytes>): Bytes {
    Unlines(Reversed(lines))
  }

  lemma {:induction false} ReversedSnoc(lines: seq<Bytes>, line: Bytes)
    ensures Reversed(lines + [line]) == Reversed(lines) + [Reverse(line)]
  {
    if lines == [] {
      assert lines + [line] == [line] && [line][1..] == [];
      assert Reversed([]) == [];
    } else {
      assert (lines + [line])[1..] == lines[1..] + [line];
      ReversedSnoc(lines[1..], line);
    }
  }

  lemma {:induction false} RepliesConcat(a: seq<Bytes>, b: seq<Bytes>)
    ensures Replies(a + b) == Replies(a) + Replies(b)
  {
    if a == [] {
      assert a + b == b;
    } else {
      assert (a + b)[1..] == a[1..] + b;
      RepliesConcat(a[1..], b);
      UnlinesCons(Reverse(a[0]), Reversed(a[1..]));
      UnlinesCons(Reverse(a[0]), Reversed((a + b)[1..]));
      ConcatAssoc(Reverse(a[0]) + [NEWLINE], Replies(a[1..]), Replies(b));
    }
  }

  lemma RepliesOne(line: Bytes)
    ensures Replies([line]) == Reverse(line) + [NEWLINE]
  {
    assert [line][1..] == [];
    assert Reversed([]) == [] && [Reverse(line)] + [] == [Reverse(line)];
    UnlinesCons(Reverse(line), []);
  }

  /** Reversal keeps lengths, so the replies to some lines are as long as the lines. */
  lemma {:induction false} RepliesLength(lines: seq<Bytes>)
    ensures |Replies(lines)| == |Unlines(lines)|
  {
    if lines != [] {
      ReverseAt(lines[0], 0);
      RepliesLength(lines[1..]);
      UnlinesCons(Reverse(lines[0]), Reversed(lines[1..]));
    }
  }

  // ---------- the world ----------

  datatype World = World(
    server: Endpoint,
    got: Bytes,                // history: the bytes the server has counted
    consumed: seq<Bytes>,      // lines whose reply has entered outgoingChan, in order
    inHand: Option<Bytes>,     // the line the handler is working on
    outgoing: seq<Bytes>,      // outgoingChan
    out: Bytes,                // every byte the sender has taken from outgoingChan, newlines included
    buf: Bytes,                // the sender's current buffer
    initLen: Int32,
    curPos: int,
    burstPos: int,
    client: Bytes,             // what the client has received
    clientSent: seq<Message>)

  datatype Step =
    | ClientSend(m: Message)
    | ServerRecv(i: nat)       // index into clientSent
    | HandlerTake
    | HandlerPut
    | TakeBuffer
    | SendChunk
    | SignalAck(k: nat)        // which accepted ack reaches the sender next
    | Retransmit
    | SessionTimeout
    | ClientRecv(i: nat)       // index into server.sent

  function Init(session: Int32): World {
    World(Fresh(session), [], [], None, [], [], [], 0, 0, 0, [], [])
  }

  /** The client may send any data, connect and close; it acknowledges no more than it has. */
  ghost predicate ClientMaySend(w: World, m: Message) {
    m.session == w.server.session && (m.Ack? ==> m.length <= |w.client|)
  }

  predicate Waiting(w: World) {
    w.curPos < |w.buf| <= w.curPos + w.burstPos
  }

  ghost predicate Enabled(w: World, step: Step) {
    match step
    case ClientSend(m) => ClientMaySend(w, m)
    case ClientRecv(i) => i < |w.server.sent|
    case _ =>
      && !w.server.closed && !w.server.crashed
      && match step
         case ServerRecv(i) => i < |w.clientSent|
         case HandlerTake => w.inHand.None? && w.server.incoming != []
         case HandlerPut => w.inHand.Some?
         case TakeBuffer => w.curPos >= |w.buf| && w.outgoing != []
         case SendChunk => w.curPos + w.burstPos < |w.buf| && w.curPos < |w.buf|
         case SignalAck(k) => Waiting(w) && k < |w.server.pending|
         case Retransmit => Waiting(w)
         case SessionTimeout => Waiting(w)
  }

  /** The client's receive rule is the server's. */
  function ClientAccepts(client: Bytes, pos: Int32, data: Bytes): Bytes {
    var total := Wrap32(|client|);
    if Rejected(total, pos, data) || Wrap32(total - pos) < 0 then client
    else client + data[Wrap32(total - pos)..]
  }

  function TakeNext(w: World): World
    requires w.outgoing != []
  {
    var buf := w.outgoing[0] + [NEWLINE];
    w.(outgoing := w.outgoing[1..], out := w.out + buf, buf := buf,
       initLen := w.server.totalOut, curPos := 0, burstPos := 0,
       server := w.server.(shouldBeSent := Wrap32(w.server.totalOut + |buf|)))
  }

  /** The packet of a burst that starts at `start` in the buffer. */
  function NextPacket(session: Int32, initLen: Int32, buf: Bytes, start: nat): Message
    requires start < |buf|
  {
    var pos, rest := Wrap32(initLen + start), buf[start..];
    Data(session, pos, rest[..ChunkLen(session, pos, rest)])
  }

  function Sent(w: World, m: Message): World {
    w.(burstPos := w.burstPos + |Payload(m)|, server := w.server.(sent := w.server.sent + [m]))
  }

  /** The next packet of the burst; a negative start stops the program. */
  function SendNext(w: World): World
    requires w.curPos + w.burstPos < |w.buf|
  {
    var start := w.curPos + w.burstPos;
    if start < 0 then w.(server := w.server.(crashed := true))
    else Sent(w, NextPacket(w.server.session, w.initLen, w.buf, start))
  }

  function Signal(w: World, k: nat): World
    requires k < |w.server.pending|
  {
    w.(curPos := Wrap32(w.server.pending[k] - w.initLen), burstPos := 0,
       server := w.server.(pending := w.server.pending[..k] + w.server.pending[k + 1..]))
  }

  function Hear(w: World, received: Option<Message>): World {
    w.(server := Handle(w.server, received), got := w.got + HandledBytes(w.server, received))
  }

  function ClientHears(w: World, m: Message): World {
    if m.Data? then
      var client := ClientAccepts(w.client, m.pos, m.data);
      w.(client := client, clientSent := w.clientSent + [Ack(w.server.session, Wrap32(|client|))])
    else w
  }

  ghost function Apply(w: World, step: Step): World
    requires Enabled(w, step)
  {
    match step
    case ClientSend(m) => w.(clientSent := w.clientSent + [m])
    case ServerRecv(i) => Hear(w, Received(w.clientSent[i]))
    case HandlerTake =>
      w.(inHand := Some(w.server.incoming[0]), server := w.server.(incoming := w.server.incoming[1..]))
    case HandlerPut =>
      w.(inHand := None, consumed := w.consumed + [w.inHand.value], outgoing := w.outgoing + [Reverse(w.inHand.value)])
    case TakeBuffer => TakeNext(w)
    case SendChunk => SendNext(w)
    case SignalAck(k) => Signal(w, k)
    case Retransmit => w.(burstPos := 0)
    case SessionTimeout => w.(server := w.server.(closed := true))
    case ClientRecv(i) => ClientHears(w, w.server.sent[i])
  }

  // ---------- the invariant ----------

  ghost function Held(w: World): seq<Bytes> {
    if w.inHand.Some? then [w.inHand.value] else []
  }

  /** Every line cut so far is consumed, in the handler's hand, or queued, in that order. */
  ghost predicate LinesInOrder(w: World) {
    CutOf(w.got, w.server, w.consumed + Held(w))
  }

  /** The sender has taken the replies to the first consumed lines; the channel holds the rest, in order. */
  ghost predicate RepliesInOrder(w: World) {
    && |w.outgoing| <= |w.consumed|
    && w.out == Replies(w.consumed[..Taken(w)])
    && w.outgoing == Reversed(w.consumed[Taken(w)..])
  }

  ghost function Taken(w: World): int {
    |w.consumed| - |w.outgoing|
  }

  /** Accepted acks on their way to the sender: none beyond what was acked. */
  ghost predicate Accepted(pending: seq<Int32>, high: int) {
    forall i :: 0 <= i < |pending| ==> 0 < pending[i] <= high
  }

  /** Heard in the order in which they were accepted, they climb from what the sender knows. */
  ghost predicate Climbs(low: int, pending: seq<Int32>, high: int) {
    && (forall i :: 0 <= i < |pending| ==> low < pending[i] <= high)
    && (forall i, j :: 0 <= i < j < |pending| ==> pending[i] < pending[j])
    && high == if pending == [] then low else pending[|pending| - 1]
  }

  /**
   * The sender's buffer is the last part of the stream handed to it, and the ack counters fit it.
   * Acks heard late can set curPos back, below the buffer's start if they belong to an earlier buffer.
   */
  ghost predicate SenderInStep(w: World) {
    && 0 <= w.initLen && 0 <= w.burstPos && w.curPos + w.burstPos <= |w.buf|
    && (w.curPos < 0 ==> w.burstPos == 0)
    && w.initLen + |w.buf| == |w.out| == w.server.shouldBeSent
    && w.out[w.initLen..] == w.buf
    && w.initLen + w.curPos <= w.server.totalOut <= w.server.shouldBeSent
    && 0 <= w.initLen + w.curPos && Accepted(w.server.pending, w.server.totalOut)
  }

  ghost predicate HeardInOrder(w: World) {
    0 <= w.curPos && Climbs(w.initLen + w.curPos, w.server.pending, w.server.totalOut)
  }

  ghost predicate HonestToClient(w: World, m: Message) {
    m.Data? ==> SliceOf(w.out, m.pos, m.data) && Sendable(w.server.session, m)
  }

  ghost predicate HonestToServer(w: World, m: Message) {
    m.Ack? ==> m.length <= |w.client|
  }

  /** Everything in flight to the client is a true slice; to the server, a true acknowledgement or anything else. */
  ghost predicate WireHonest(w: World) {
    && (forall i :: 0 <= i < |w.server.sent| ==> HonestToClient(w, w.server.sent[i]))
    && (forall i :: 0 <= i < |w.clientSent| ==> HonestToServer(w, w.clientSent[i]))
  }

  ghost predicate ClientBehind(w: World) {
    w.client <= w.out && w.server.totalOut <= |w.client|
  }

  ghost predicate Inv(w: World) {
    && LinesInOrder(w) && RepliesInOrder(w) && SenderInStep(w)
    && WireHonest(w) && ClientBehind(w) && !w.server.misbehaved
  }

  /** Replies are never longer than the bytes they answer, so 32-bit counters suffice for both. */
  lemma {:induction false} RepliesBounded(got: Bytes, taken: seq<Bytes>, rest: seq<Bytes>)
    requires taken + rest == Lines(got)
    ensures |Replies(taken)| <= |got|
  {
    RepliesConcat(taken, rest);
    RepliesLength(Lines(got));
    LinesJoin(got);
  }

  lemma {:induction false} OutBounded(w: World)
    requires LinesInOrder(w) && RepliesInOrder(w)
    ensures |w.out| + |Unlines(w.outgoing)| < 0x8000_0000
    ensures w.consumed <= Lines(w.got)
  {
    var rest, k := Held(w) + w.server.incoming, Taken(w);
    ConcatAssoc(w.consumed, Held(w), w.server.incoming);
    RepliesBounded(w.got, w.consumed, rest);
    RepliesConcat(w.consumed[..k], w.consumed[k..]);
    assert w.consumed == w.consumed[..k] + w.consumed[k..];
  }

  // ---------- every step keeps the invariant ----------

  lemma {:induction false} ClientSendKeeps(w: World, m: Message)
    requires Inv(w) && Enabled(w, ClientSend(m))
    ensures Inv(Apply(w, ClientSend(m)))
  {
  }

  /** The server has received something: its receiving half is sound and its sending half as before. */
  lemma {:induction false} ReceivingKeeps(w: World, e: Endpoint, got: Bytes)
    requires Inv(w) && CutOf(got, e, w.consumed + Held(w))
    requires e.session == w.server.session && e.totalOut == w.server.totalOut
    requires e.shouldBeSent == w.server.shouldBeSent && e.pending == w.server.pending && !e.misbehaved
    requires e.sent == w.server.sent || (exists n :: e.sent == w.server.sent + [Ack(e.session, n)])
    ensures Inv(w.(server := e, got := got))
  {
    var w' := w.(server := e, got := got);
    WireGrows(w, w');
    assert RepliesInOrder(w') && SenderInStep(w') && ClientBehind(w');
  }

  /** A data message at the server touches only the receiving half. */
  lemma {:induction false} HearDataKeeps(w: World, m: Message)
    requires Inv(w) && m.Data? && |Hear(w, Some(m)).got| < 0x8000_0000
    ensures Inv(Hear(w, Some(m)))
  {
    MessageCuts(w.got, w.server, w.consumed + Held(w), m);
    DataTouchesReceiver(w.server, m.pos, m.data);
    ReceivingKeeps(w, OnData(w.server, m.pos, m.data), w.got + NewBytes(w.server, m));
  }

  lemma {:induction false} NothingNew(w: World, m: Message)
    requires !m.Data?
    ensures Hear(w, Some(m)) == w.(server := OnMessage(w.server, m))
  {
    assert w.got + [] == w.got;
  }

  lemma {:induction false} HearAckKeeps(w: World, m: Message)
    requires Inv(w) && m.Ack? && m.length <= |w.client|
    ensures Inv(Hear(w, Some(m)))
  {
    NothingNew(w, m);
  }

  lemma {:induction false} HearKeeps(w: World, m: Message)
    requires Inv(w) && (m.Ack? ==> m.length <= |w.client|) && |Hear(w, Some(m)).got| < 0x8000_0000
    ensures Inv(Hear(w, Some(m)))
  {
    if m.Data? {
      HearDataKeeps(w, m);
    } else if m.Ack? {
      HearAckKeeps(w, m);
    } else {
      NothingNew(w, m);
      WireGrows(w, Hear(w, Some(m)));
    }
  }

  lemma {:induction false} LossKeeps(w: World)
    ensures Hear(w, None) == w
  {
    assert w.got + [] == w.got;
  }

  /** Only acks arrive as acks, and as they were sent. */
  lemma {:induction false} AcksArriveAsSent(m: Message)
    ensures Received(m).Some? && Received(m).value.Ack? ==> Received(m) == Some(m)
  {
    ReceivedIff(m);
    if m.Data? && |Encode(m)| <= MTU {
      WholeDatagram(m);
      DataDecoded(m);
    }
  }

  lemma {:induction false} AckArrives(session: Int32, length: Int32)
    ensures Received(Ack(session, length)) == Some(Ack(session, length))
  {
    ControlRoundTrip(Ack(session, length));
    AcceptedFits(Ack(session, length));
    ReceivedIff(Ack(session, length));
  }

  lemma {:induction false} AckHeard(w: World, session: Int32, length: Int32)
    requires w.server.totalOut < length <= w.server.shouldBeSent
    ensures Hear(w, Some(Ack(session, length))) ==
            w.(server := w.server.(totalOut := length, pending := w.server.pending + [length]))
  {
    NothingNew(w, Ack(session, length));
  }

  lemma {:induction false} ServerRecvKeeps(w: World, i: nat)
    requires Inv(w) && Enabled(w, ServerRecv(i)) && |Apply(w, ServerRecv(i)).got| < 0x8000_0000
    ensures Inv(Apply(w, ServerRecv(i)))
  {
    var m := w.clientSent[i];
    assert HonestToServer(w, m);
    AcksArriveAsSent(m);
    HeardKeeps(w, Received(m));
  }

  lemma {:induction false} HeardKeeps(w: World, received: Option<Message>)
    requires Inv(w) && (received.Some? && received.value.Ack? ==> received.value.length <= |w.client|)
    requires |Hear(w, received).got| < 0x8000_0000
    ensures Inv(Hear(w, received))
  {
    match received {
      case None => LossKeeps(w);
      case Some(m) => HearKeeps(w, m);
    }
  }

  lemma HandlerTakeKeeps(w: World)
    requires Inv(w) && Enabled(w, HandlerTake)
    ensures Inv(Apply(w, HandlerTake))
  {
    var q := w.server.incoming;
    assert q == [q[0]] + q[1..];
    assert w.consumed + [] == w.consumed;
    ConcatAssoc(w.consumed, [q[0]], q[1..]);
  }

  lemma HandlerPutKeeps(w: World)
    requires Inv(w) && Enabled(w, HandlerPut)
    ensures Inv(Apply(w, HandlerPut))
  {
    var line := w.inHand.value;
    PutsNextReply(w.consumed, Taken(w), line);
    assert w.consumed + [line] + [] == w.consumed + [line];
  }

  lemma PutsNextReply(consumed: seq<Bytes>, k: nat, line: Bytes)
    requires k <= |consumed|
    ensures (consumed + [line])[..k] == consumed[..k]
    ensures Reversed((consumed + [line])[k..]) == Reversed(consumed[k..]) + [Reverse(line)]
  {
    ReversedSnoc(consumed[k..], line);
    assert (consumed + [line])[k..] == consumed[k..] + [line];
  }

  /** The reply the sender takes is the one to the next consumed line. */
  lemma TakesNextReply(consumed: seq<Bytes>, k: nat, out: Bytes, outgoing: seq<Bytes>)
    requires k < |consumed| && out == Replies(consumed[..k]) && outgoing == Reversed(consumed[k..]) && outgoing != []
    ensures out + (outgoing[0] + [NEWLINE]) == Replies(consumed[..k + 1])
    ensures outgoing[1..] == Reversed(consumed[k + 1..])
  {
    assert consumed[k..][1..] == consumed[k + 1..];
    RepliesConcat(consumed[..k], [consumed[k]]);
    RepliesOne(consumed[k]);
    assert consumed[..k] + [consumed[k]] == consumed[..k + 1];
  }

  lemma SliceGrows(out: Bytes, more: Bytes, pos: int, data: Bytes)
    requires SliceOf(out, pos, data)
    ensures SliceOf(out + more, pos, data)
  {
  }

  /** Everything was acked before the sender moves on, so positions continue where they stopped. */
  lemma TakeBufferKeeps(w: World)
    requires Inv(w) && Enabled(w, TakeBuffer)
    ensures Inv(Apply(w, TakeBuffer))
  {
    var w' := TakeNext(w);
    var line := w.outgoing[0];
    OutBounded(w);
    TakesNextReply(w.consumed, Taken(w), w.out, w.outgoing);
    forall i | 0 <= i < |w'.server.sent| ensures HonestToClient(w', w'.server.sent[i]) {
      var m := w.server.sent[i];
      assert HonestToClient(w, m);
      if m.Data? {
        SliceGrows(w.out, line + [NEWLINE], m.pos, m.data);
      }
    }
    assert forall i :: 0 <= i < |w'.clientSent| ==> HonestToServer(w, w'.clientSent[i]);
  }

  /** The next packet of a burst is a true slice of the stream handed to the sender. */
  lemma ChunkHonest(session: Int32, out: Bytes, initLen: Int32, buf: Bytes, start: nat)
    requires 0 <= initLen && initLen + |buf| == |out| < 0x8000_0000 && out[initLen..] == buf && start < |buf|
    ensures var m := NextPacket(session, initLen, buf, start);
      m.Data? && start + |m.data| <= |buf| && SliceOf(out, m.pos, m.data) && Sendable(session, m)
  {
    var pos: Int32, rest := initLen + start, buf[start..];
    ChunkFits(session, pos, rest);
    var n := ChunkLen(session, pos, rest);
    AcceptedFits(Data(session, pos, rest[..n]));
    assert rest == out[pos..];
  }

  lemma PacketKeeps(w: World, m: Message)
    requires Inv(w) && m.Data? && HonestToClient(w, m)
    requires 0 <= w.curPos && w.curPos + w.burstPos + |m.data| <= |w.buf|
    ensures Inv(Sent(w, m))
  {
    WireGrows(w, Sent(w, m));
  }

  lemma {:induction false} SendChunkKeeps(w: World)
    requires Inv(w) && Enabled(w, SendChunk)
    ensures Inv(Apply(w, SendChunk))
  {
    var start := w.curPos + w.burstPos;
    if start >= 0 {
      NextPacketHonest(w);
      PacketKeeps(w, NextPacket(w.server.session, w.initLen, w.buf, start));
    }
  }

  lemma {:induction false} NextPacketHonest(w: World)
    requires LinesInOrder(w) && RepliesInOrder(w) && SenderInStep(w) && 0 <= w.curPos + w.burstPos < |w.buf|
    ensures var start := w.curPos + w.burstPos;
      var m := NextPacket(w.server.session, w.initLen, w.buf, start);
      m.Data? && HonestToClient(w, m) && start + |m.data| <= |w.buf|
  {
    OutBounded(w);
    ChunkHonest(w.server.session, w.out, w.initLen, w.buf, w.curPos + w.burstPos);
  }

  /** One more honest message on either wire, with nothing else it depends on changed. */
  lemma WireGrows(w: World, w': World)
    requires WireHonest(w) && w'.out == w.out && w'.server.session == w.server.session
    requires |w.client| <= |w'.client|
    requires w'.server.sent == w.server.sent ||
      exists m :: w'.server.sent == w.server.sent + [m] && HonestToClient(w, m)
    requires w'.clientSent == w.clientSent ||
      exists m :: w'.clientSent == w.clientSent + [m] && HonestToServer(w', m)
    ensures WireHonest(w')
  {
    forall i | 0 <= i < |w'.server.sent| ensures HonestToClient(w', w'.server.sent[i]) {
      assert i < |w.server.sent| ==> HonestToClient(w, w.server.sent[i]);
    }
    forall i | 0 <= i < |w'.clientSent| ensures HonestToServer(w', w'.clientSent[i]) {
      assert i < |w.clientSent| ==> HonestToServer(w, w.clientSent[i]);
    }
  }

  lemma AcceptedShrinks(pending: seq<Int32>, high: int, k: nat)
    requires k < |pending| && Accepted(pending, high)
    ensures Accepted(pending[..k] + pending[k + 1..], high) && 0 < pending[k] <= high
  {
  }

  lemma SignalMoves(w: World, k: nat)
    requires 0 <= w.initLen && k < |w.server.pending| && 0 < w.server.pending[k]
    ensures Signal(w, k).curPos == w.server.pending[k] - w.initLen
  {
  }

  lemma {:induction false} SignalSender(w: World, k: nat)
    requires SenderInStep(w) && k < |w.server.pending|
    ensures SenderInStep(Signal(w, k))
    ensures Signal(w, k).curPos == w.server.pending[k] - w.initLen
  {
    AcceptedShrinks(w.server.pending, w.server.totalOut, k);
    SignalMoves(w, k);
  }

  lemma {:induction false} SignalAckKeeps(w: World, k: nat)
    requires Inv(w) && Enabled(w, SignalAck(k))
    ensures Inv(Apply(w, SignalAck(k)))
  {
    SignalSender(w, k);
    WireGrows(w, Signal(w, k));
  }

  /** A true slice leaves the client with a prefix of the stream, no shorter than before. */
  lemma ClientKeepsPrefix(out: Bytes, client: Bytes, pos: Int32, data: Bytes)
    requires |out| < 0x8000_0000 && client <= out && SliceOf(out, pos, data)
    ensures client <= ClientAccepts(client, pos, data) <= out
  {
    var n := |client|;
    if pos <= n < pos + |data| {
      assert data[n - pos..] == out[n..pos + |data|];
      assert client + data[n - pos..] == out[..pos + |data|];
    }
  }

  /** The client keeps a prefix of what was sent, and acknowledges no more than it keeps. */
  lemma ClientRecvKeeps(w: World, i: nat)
    requires Inv(w) && Enabled(w, ClientRecv(i))
    ensures Inv(Apply(w, ClientRecv(i)))
  {
    var m := w.server.sent[i];
    assert HonestToClient(w, m);
    if m.Data? {
      OutBounded(w);
      ClientKeepsPrefix(w.out, w.client, m.pos, m.data);
      var w' := ClientHears(w, m);
      assert HonestToServer(w', w'.clientSent[|w.clientSent|]);
      WireGrows(w, w');
    }
  }

  lemma {:induction false} StepKeeps(w: World, step: Step)
    requires Inv(w) && Enabled(w, step) && |Apply(w, step).got| < 0x8000_0000
    ensures Inv(Apply(w, step))
  {
    match step {
      case ClientSend(m) => ClientSendKeeps(w, m);
      case ServerRecv(i) => ServerRecvKeeps(w, i);
      case HandlerTake => HandlerTakeKeeps(w);
      case HandlerPut => HandlerPutKeeps(w);
      case TakeBuffer => TakeBufferKeeps(w);
      case SendChunk => SendChunkKeeps(w);
      case SignalAck(k) => SignalAckKeeps(w, k);
      case Retransmit =>
      case SessionTimeout =>
      case ClientRecv(i) => ClientRecvKeeps(w, i);
    }
  }

  // ---------- late acks ----------

  /** The sender hears of an ack that belongs to a buffer it has already left. */
  predicate Late(w: World, step: Step) {
    step.SignalAck? && step.k < |w.server.pending| && w.server.pending[step.k] < w.initLen
  }

  /** Only a late ack takes the sender below its buffer, and nothing takes it back. */
  lemma {:induction false} OnlyLateAcksSink(w: World, step: Step)
    requires Inv(w) && Enabled(w, step)
    ensures Apply(w, step).curPos < 0 <==> w.curPos < 0 || Late(w, step)
  {
    if step.SignalAck? {
      SignalSender(w, step.k);
    }
  }

  // ---------- whole runs ----------

  ghost predicate Legal(w: World, steps: seq<Step>)
    decreases |steps|
  {
    steps == [] || (Enabled(w, steps[0]) && Legal(Apply(w, steps[0]), steps[1..]))
  }

  ghost function Run(w: World, steps: seq<Step>): World
    requires Legal(w, steps)
    decreases |steps|
  {
    if steps == [] then w else Run(Apply(w, steps[0]), steps[1..])
  }

  lemma {:induction false} RunSnoc(w: World, steps: seq<Step>, step: Step)
    requires Legal(w, steps) && Enabled(Run(w, steps), step)
    ensures Legal(w, steps + [step]) && Run(w, steps + [step]) == Apply(Run(w, steps), step)
    decreases |steps|
  {
    var all := steps + [step];
    if steps == [] {
      assert all == [step] && all[1..] == [];
    } else {
      assert all[0] == steps[0] && all[1..] == steps[1..] + [step];
      RunSnoc(Apply(w, steps[0]), steps[1..], step);
    }
  }

  lemma {:induction false} GotGrows(w: World, step: Step)
    requires Enabled(w, step)
    ensures |w.got| <= |Apply(w, step).got|
  {
  }

  lemma {:induction false} GotOnlyGrows(w: World, steps: seq<Step>)
    requires Legal(w, steps)
    ensures |w.got| <= |Run(w, steps).got|
    decreases |steps|
  {
    if steps != [] {
      GotGrows(w, steps[0]);
      GotOnlyGrows(Apply(w, steps[0]), steps[1..]);
    }
  }

  lemma {:induction false} RunKeeps(w: World, steps: seq<Step>)
    requires Inv(w) && Legal(w, steps) && |Run(w, steps).got| < 0x8000_0000
    ensures Inv(Run(w, steps))
    decreases |steps|
  {
    if steps != [] {
      GotOnlyGrows(Apply(w, steps[0]), steps[1..]);
      StepKeeps(w, steps[0]);
      RunKeeps(Apply(w, steps[0]), steps[1..]);
    }
  }

  lemma {:induction false} InitInv(session: Int32)
    ensures Inv(Init(session)) && HeardInOrder(Init(session))
  {
    NoNewline([], []);
  }

  /** Somewhere in the run an ack is heard late. */
  ghost predicate HearsLate(w: World, steps: seq<Step>)
    requires Legal(w, steps)
    decreases |steps|
  {
    steps != [] && (Late(w, steps[0]) || HearsLate(Apply(w, steps[0]), steps[1..]))
  }

  /** Somewhere in the run an ack is heard late, and a packet is sent after that. */
  ghost predicate LateThenSends(w: World, steps: seq<Step>)
    requires Legal(w, steps)
    decreases |steps|
  {
    steps != [] &&
    ((Late(w, steps[0]) && SendChunk in steps[1..]) || LateThenSends(Apply(w, steps[0]), steps[1..]))
  }

  lemma {:induction false} LateThenSendsSends(w: World, steps: seq<Step>)
    requires Legal(w, steps) && LateThenSends(w, steps)
    ensures SendChunk in steps
    decreases |steps|
  {
    if !(Late(w, steps[0]) && SendChunk in steps[1..]) {
      LateThenSendsSends(Apply(w, steps[0]), steps[1..]);
    }
  }

  lemma {:induction false} SinksIff(w: World, steps: seq<Step>)
    requires Inv(w) && Legal(w, steps) && |Run(w, steps).got| < 0x8000_0000
    ensures Run(w, steps).curPos < 0 <==> w.curPos < 0 || HearsLate(w, steps)
    decreases |steps|
  {
    if steps != [] {
      GotOnlyGrows(Apply(w, steps[0]), steps[1..]);
      StepKeeps(w, steps[0]);
      OnlyLateAcksSink(w, steps[0]);
      SinksIff(Apply(w, steps[0]), steps[1..]);
    }
  }

  lemma {:induction false} StoppedStays(w: World, steps: seq<Step>)
    requires Legal(w, steps) && w.server.crashed
    ensures Run(w, steps).server.crashed
    decreases |steps|
  {
    if steps != [] {
      StoppedStays(Apply(w, steps[0]), steps[1..]);
    }
  }

  lemma SendsHeadOrTail(steps: seq<Step>)
    requires steps != []
    ensures SendChunk in steps <==> steps[0].SendChunk? || SendChunk in steps[1..]
  {
    assert steps == [steps[0]] + steps[1..];
  }

  lemma {:induction false} LateAckDooms(w: World, k: nat)
    requires SenderInStep(w) && Enabled(w, SignalAck(k)) && Late(w, SignalAck(k))
    ensures var w' := Apply(w, SignalAck(k)); Enabled(w', SendChunk) && Apply(w', SendChunk).server.crashed
  {
    SignalSender(w, k);
  }

  /**
   * Every reachable state in which a late ack can be heard is two steps from the stop: hear it, and send
   * the next packet.
   */
  lemma {:induction false} LateAckStops(session: Int32, steps: seq<Step>, k: nat)
    requires Legal(Init(session), steps) && |Run(Init(session), steps).got| < 0x8000_0000
    requires var w := Run(Init(session), steps); Enabled(w, SignalAck(k)) && Late(w, SignalAck(k))
    ensures var more := steps + [SignalAck(k)] + [SendChunk];
      Legal(Init(session), more) && Run(Init(session), more).server.crashed
  {
    var w0 := Init(session);
    var w := Run(w0, steps);
    InitInv(session);
    RunKeeps(w0, steps);
    LateAckDooms(w, k);
    RunSnoc(w0, steps, SignalAck(k));
    RunSnoc(w0, steps + [SignalAck(k)], SendChunk);
  }

  // ---------- acks heard in order ----------

  /** The sender hears of the ack that was accepted first. */
  predicate InOrder(step: Step) {
    step.SignalAck? ==> step.k == 0
  }

  predicate AllInOrder(steps: seq<Step>) {
    forall i :: 0 <= i < |steps| ==> InOrder(steps[i])
  }

  lemma ClimbsTail(low: int, pending: seq<Int32>, high: int)
    requires pending != [] && Climbs(low, pending, high)
    ensures Climbs(pending[0], pending[1..], high) && low < pending[0] <= high
  {
  }

  lemma ClimbsSnoc(low: int, pending: seq<Int32>, high: int, length: Int32)
    requires Climbs(low, pending, high) && low <= high < length
    ensures Climbs(low, pending + [length], length)
  {
  }

  lemma SignalTakesFirst(w: World)
    requires w.server.pending != []
    ensures Signal(w, 0).server.pending == w.server.pending[1..]
  {
  }

  lemma {:induction false} SignalInOrder(w: World)
    requires 0 <= w.initLen && HeardInOrder(w) && w.server.pending != []
    ensures HeardInOrder(Signal(w, 0))
  {
    var p := w.server.pending;
    ClimbsTail(w.initLen + w.curPos, p, w.server.totalOut);
    SignalMoves(w, 0);
    SignalTakesFirst(w);
    HeardFrom(Signal(w, 0), p[0], p[1..]);
  }

  lemma HeardFrom(w: World, low: int, pending: seq<Int32>)
    requires w.initLen + w.curPos == low && w.server.pending == pending && w.initLen <= low
    requires Climbs(low, pending, w.server.totalOut)
    ensures HeardInOrder(w)
  {
  }

  lemma {:induction false} MessageInOrder(w: World, m: Message)
    requires SenderInStep(w) && HeardInOrder(w)
    ensures HeardInOrder(w.(server := OnMessage(w.server, m)))
  {
    if m.Ack? && w.server.totalOut < m.length <= w.server.shouldBeSent {
      ClimbsSnoc(w.initLen + w.curPos, w.server.pending, w.server.totalOut, m.length);
    }
  }

  lemma {:induction false} HearInOrder(w: World, received: Option<Message>)
    requires SenderInStep(w) && HeardInOrder(w)
    ensures HeardInOrder(Hear(w, received))
  {
    if received.Some? {
      MessageInOrder(w, received.value);
    }
  }

  lemma {:induction false} StepInOrder(w: World, step: Step)
    requires Inv(w) && HeardInOrder(w) && Enabled(w, step) && InOrder(step)
    ensures HeardInOrder(Apply(w, step))
  {
    match step {
      case SignalAck(_) => SignalInOrder(w);
      case ServerRecv(i) => HearInOrder(w, Received(w.clientSent[i]));
      case TakeBuffer => OutBounded(w);
      case _ =>
    }
  }

  lemma {:induction false} RunInOrder(w: World, steps: seq<Step>)
    requires Inv(w) && HeardInOrder(w) && Legal(w, steps) && AllInOrder(steps)
    requires |Run(w, steps).got| < 0x8000_0000
    ensures Inv(Run(w, steps)) && HeardInOrder(Run(w, steps))
    decreases |steps|
  {
    if steps != [] {
      GotOnlyGrows(Apply(w, steps[0]), steps[1..]);
      StepKeeps(w, steps[0]);
      StepInOrder(w, steps[0]);
      RunInOrder(Apply(w, steps[0]), steps[1..]);
    }
  }

  /** Acks heard in the order in which they were accepted are never late. */
  lemma {:induction false} InOrderIsNeverLate(session: Int32, steps: seq<Step>)
    requires Legal(Init(session), steps) && AllInOrder(steps) && |Run(Init(session), steps).got| < 0x8000_0000
    ensures !HearsLate(Init(session), steps)
  {
    InitInv(session);
    RunInOrder(Init(session), steps);
    SinksIff(Init(session), steps);
  }

  // ---------- end to end, for any client ----------

  /** What the invariant says about the replies. */
  lemma {:induction false} RepliesToFirstLines(w: World)
    requires LinesInOrder(w) && RepliesInOrder(w)
    ensures exists k :: 0 <= k <= |Lines(w.got)| && w.out == Replies(Lines(w.got)[..k])
  {
    OutBounded(w);
    var k := Taken(w);
    assert Lines(w.got)[..k] == w.consumed[..k];
  }

  /**
   * Whatever data the client sends and whatever the network does, in every reachable state the acked
   * length, the client's length and the sent length are in order; the client holds a prefix of what the
   * server sent, which is exactly the replies to the first lines of the bytes the server has counted; and
   * the server never closes the session for an ack beyond what it sent.
   */
  lemma {:induction false} EndToEnd(session: Int32, steps: seq<Step>)
    requires Legal(Init(session), steps) && |Run(Init(session), steps).got| < 0x8000_0000
    ensures var w := Run(Init(session), steps);
      && w.server.totalIn == |w.got|
      && w.server.totalOut <= |w.client| <= w.server.shouldBeSent == |w.out|
      && w.client <= w.out
      && (exists k :: 0 <= k <= |Lines(w.got)| && w.out == Replies(Lines(w.got)[..k]))
      && !w.server.misbehaved
  {
    InitInv(session);
    RunKeeps(Init(session), steps);
    RepliesToFirstLines(Run(Init(session), steps));
  }

  // ---------- end to end, for a client with a stream ----------

  predicate HonestData(stream: Bytes, m: Message) {
    m.Data? ==>
      && 0 <= m.pos && m.pos + |m.data| <= |stream| && m.data == stream[m.pos..m.pos + |m.data|]
      && Undistorted(m)
  }

  /** The client sends slices of one stream that the server's decoder does not distort. */
  predicate SendsFrom(stream: Bytes, steps: seq<Step>) {
    forall i :: 0 <= i < |steps| && steps[i].ClientSend? ==> HonestData(stream, steps[i].m)
  }

  /** Then the server counts a prefix of the stream, and with lines that fit only a late ack stops it. */
  ghost predicate Streamed(stream: Bytes, w: World) {
    && |stream| < 0x8000_0000 && w.got <= stream
    && (forall i :: 0 <= i < |w.clientSent| ==> HonestData(stream, w.clientSent[i]))
    && (w.server.crashed && Fits(stream) ==> w.curPos < 0)
  }

  lemma {:induction false} TailFollows(stream: Bytes, buf: Bytes, got: Bytes, tail: Bytes)
    requires got <= stream && SliceOf(stream, |got|, tail) && buf == Residual(got)
    ensures got + tail <= stream && (Fits(stream) ==> Fits(buf + tail))
  {
    assert got == stream[..|got|];
    SliceFollows(stream, |got|, tail);
    if Fits(stream) {
      FitsMiddle(got, tail, stream[|got| + |tail|..]);
    }
  }

  /** Of an honest message, the bytes past those counted are the next ones of the stream. */
  lemma {:induction false} DataFollows(stream: Bytes, e: Endpoint, got: Bytes, m: Message)
    requires |stream| < 0x8000_0000 && e.totalIn == |got| && got <= stream && e.buf == Residual(got)
    requires m.Data? && SliceOf(stream, m.pos, m.data)
    ensures got + NewBytes(e, m) <= stream
    ensures !e.crashed && OnData(e, m.pos, m.data).crashed ==> !Fits(stream)
  {
    OnSlice(stream, e, m.pos, m.data);
    if m.pos <= e.totalIn < m.pos + |m.data| {
      TailFollows(stream, e.buf, got, m.data[e.totalIn - m.pos..]);
    }
    assert got + [] == got;
  }

  /** The bytes that an honest message adds are the next of the stream; it stops the server only if they do not fit. */
  lemma {:induction false} NewBytesFollow(stream: Bytes, e: Endpoint, taken: seq<Bytes>, got: Bytes, m: Message)
    requires |stream| < 0x8000_0000 && CutOf(got, e, taken) && got <= stream && HonestData(stream, m)
    ensures got + NewBytes(e, m) <= stream
    ensures !e.crashed && OnMessage(e, m).crashed ==> !Fits(stream)
  {
    if m.Data? {
      DataFollows(stream, e, got, m);
    } else {
      assert got + [] == got;
    }
  }

  lemma {:induction false} HearStreams(stream: Bytes, w: World, m: Message, r: Option<Message>)
    requires Inv(w) && Streamed(stream, w) && !w.server.crashed && HonestData(stream, m)
    requires r == None || r == Some(m)
    ensures Streamed(stream, Hear(w, r)) && |Hear(w, r).got| < 0x8000_0000
    ensures Fits(stream) ==> !Hear(w, r).server.crashed
  {
    if r.Some? {
      NewBytesFollow(stream, w.server, w.consumed + Held(w), w.got, m);
    } else {
      LossKeeps(w);
    }
  }

  lemma {:induction false} ServerRecvStreams(stream: Bytes, w: World, i: nat)
    requires Inv(w) && Streamed(stream, w) && Enabled(w, ServerRecv(i))
    ensures Streamed(stream, Apply(w, ServerRecv(i))) && |Apply(w, ServerRecv(i)).got| < 0x8000_0000
    ensures Fits(stream) ==> !Apply(w, ServerRecv(i)).server.crashed
  {
    var m := w.clientSent[i];
    assert HonestData(stream, m);
    ReceivedIff(m);
    HearStreams(stream, w, m, Received(m));
  }

  lemma {:induction false} OtherStreams(stream: Bytes, w: World, step: Step)
    requires Inv(w) && Streamed(stream, w) && Enabled(w, step) && !step.ServerRecv?
    requires step.ClientSend? ==> HonestData(stream, step.m)
    ensures Streamed(stream, Apply(w, step)) && |Apply(w, step).got| < 0x8000_0000
  {
    if step.SignalAck? {
      SignalSender(w, step.k);
    }
  }

  lemma {:induction false} StepStreams(stream: Bytes, w: World, step: Step)
    requires Inv(w) && Streamed(stream, w) && Enabled(w, step) && (step.ClientSend? ==> HonestData(stream, step.m))
    ensures Inv(Apply(w, step)) && Streamed(stream, Apply(w, step))
  {
    if step.ServerRecv? {
      ServerRecvStreams(stream, w, step.i);
    } else {
      OtherStreams(stream, w, step);
    }
    StepKeeps(w, step);
  }

  /** With lines that fit, what stops the server is a packet sent from below the buffer. */
  lemma {:induction false} StepStopsIff(stream: Bytes, w: World, step: Step)
    requires Inv(w) && Streamed(stream, w) && Enabled(w, step) && Fits(stream) && !w.server.crashed
    ensures Apply(w, step).server.crashed <==> step.SendChunk? && w.curPos < 0
  {
    if step.ServerRecv? {
      ServerRecvStreams(stream, w, step.i);
    }
  }

  lemma SendsFromTail(stream: Bytes, steps: seq<Step>)
    requires steps != [] && SendsFrom(stream, steps)
    ensures SendsFrom(stream, steps[1..]) && (steps[0].ClientSend? ==> HonestData(stream, steps[0].m))
  {
  }

  lemma {:induction false} RunStreams(stream: Bytes, w: World, steps: seq<Step>)
    requires Inv(w) && Streamed(stream, w) && Legal(w, steps) && SendsFrom(stream, steps)
    ensures Inv(Run(w, steps)) && Streamed(stream, Run(w, steps))
    decreases |steps|
  {
    if steps != [] {
      SendsFromTail(stream, steps);
      StepStreams(stream, w, steps[0]);
      RunStreams(stream, Apply(w, steps[0]), steps[1..]);
    }
  }

  lemma {:induction false} InitStreams(stream: Bytes, session: Int32)
    requires |stream| < 0x8000_0000
    ensures Inv(Init(session)) && Streamed(stream, Init(session))
  {
    InitInv(session);
  }

  /** What stops a run, from any state it may have reached. */
  lemma {:induction false} StopsIff(stream: Bytes, w: World, steps: seq<Step>)
    requires Inv(w) && Streamed(stream, w) && Legal(w, steps) && SendsFrom(stream, steps)
    requires Fits(stream) && !w.server.crashed
    ensures Run(w, steps).server.crashed <==> if w.curPos < 0 then SendChunk in steps else LateThenSends(w, steps)
    decreases |steps|
  {
    if steps != [] {
      var step, rest := steps[0], steps[1..];
      var next := Apply(w, step);
      SendsFromTail(stream, steps);
      StepStreams(stream, w, step);
      StepStopsIff(stream, w, step);
      OnlyLateAcksSink(w, step);
      SendsHeadOrTail(steps);
      if next.server.crashed {
        StoppedStays(next, rest);
      } else {
        StopsIff(stream, next, rest);
        if LateThenSends(next, rest) {
          LateThenSendsSends(next, rest);
        }
      }
    }
  }

  /**
   * For a client that sends undistorted slices of one stream, the bytes that EndToEnd speaks of are the
   * first bytes of that stream; and if every line fits, the server has stopped exactly when it sent a
   * packet after hearing an ack late.
   */
  lemma {:induction false} StreamEndToEnd(stream: Bytes, session: Int32, steps: seq<Step>)
    requires |stream| < 0x8000_0000 && Legal(Init(session), steps) && SendsFrom(stream, steps)
    ensures var w := Run(Init(session), steps);
      && w.got <= stream
      && (exists k :: 0 <= k <= |Lines(w.got)| && w.out == Replies(Lines(w.got)[..k]))
      && (Fits(stream) ==> (w.server.crashed <==> LateThenSends(Init(session), steps)))
  {
    InitStreams(stream, session);
    RunStreams(stream, Init(session), steps);
    RepliesToFirstLines(Run(Init(session), steps));
    if Fits(stream) {
      StopsIff(stream, Init(session), steps);
    }
  }

  // ---------- building runs ----------

  /** A run with a client of that stream leads from one world to another. */
  ghost predicate Reaches(stream: Bytes, w: World, v: World) {
    exists steps :: Legal(w, steps) && SendsFrom(stream, steps) && Run(w, steps) == v
  }

  lemma {:induction false} Start(stream: Bytes, w: World)
    ensures Reaches(stream, w, w)
  {
    assert Legal(w, []) && SendsFrom(stream, []) && Run(w, []) == w;
  }

  lemma {:induction false} Next(stream: Bytes, w: World, v: World, step: Step) returns (v': World)
    requires Reaches(stream, w, v) && Enabled(v, step) && (step.ClientSend? ==> HonestData(stream, step.m))
    ensures v' == Apply(v, step) && Reaches(stream, w, v')
  {
    var steps :| Legal(w, steps) && SendsFrom(stream, steps) && Run(w, steps) == v;
    RunSnoc(w, steps, step);
    assert SendsFrom(stream, steps + [step]);
    v' := Apply(v, step);
  }

  lemma {:induction false} RunFirst(w: World, step: Step, rest: seq<Step>)
    requires Enabled(w, step) && Legal(Apply(w, step), rest)
    ensures Legal(w, [step] + rest) && Run(w, [step] + rest) == Run(Apply(w, step), rest)
  {
    assert ([step] + rest)[1..] == rest;
  }

  lemma {:induction false} RunConcat(w: World, a: seq<Step>, b: seq<Step>)
    requires Legal(w, a) && Legal(Run(w, a), b)
    ensures Legal(w, a + b) && Run(w, a + b) == Run(Run(w, a), b)
    decreases |a|
  {
    if a == [] {
      assert a + b == b;
    } else {
      RunConcat(Apply(w, a[0]), a[1..], b);
      RunFirst(w, a[0], a[1..] + b);
      assert a + b == [a[0]] + (a[1..] + b);
    }
  }

  lemma {:induction false} ReachesOn(stream: Bytes, u: World, v: World, w: World)
    requires Reaches(stream, u, v) && Reaches(stream, v, w)
    ensures Reaches(stream, u, w)
  {
    var a :| Legal(u, a) && SendsFrom(stream, a) && Run(u, a) == v;
    var b :| Legal(v, b) && SendsFrom(stream, b) && Run(v, b) == w;
    RunConcat(u, a, b);
    assert SendsFrom(stream, a + b);
  }
}
