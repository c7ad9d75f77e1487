/**
 * The line-reversal service can always finish: as long as the session is open and no ack was heard late,
 * some continuation brings the client every reply to its stream.
 */
module LrcpCompletion {
  import opened Bytes
  import opened Common
  import opened LrcpCodec
  import opened LrcpSession
  import opened LrcpReceiver
  import opened LrcpNetwork

  // ---------- the sender is never left without an ack to hear ----------

  /** If everything is acked, the sender knows, or the ack that says so is on its way. */
  ghost predicate Moving(w: World) {
    w.server.totalOut == |w.out| ==> w.curPos == |w.buf| || |w.out| in w.server.pending
  }

  lemma {:induction false} StillPending(pending: seq<Int32>, k: nat, x: Int32)
    requires k < |pending| && x in pending && pending[k] != x
    ensures x in pending[..k] + pending[k + 1..]
  {
    var i :| 0 <= i < |pending| && pending[i] == x;
    var rest := pending[..k] + pending[k + 1..];
    assert if i < k then rest[i] == x else rest[i - 1] == x;
  }

  lemma {:induction false} SignalMovesOn(w: World, k: nat)
    requires SenderInStep(w) && Moving(w) && Enabled(w, SignalAck(k))
    ensures Moving(Signal(w, k))
  {
    SignalSender(w, k);
    if w.server.totalOut == |w.out| && w.server.pending[k] != |w.out| {
      StillPending(w.server.pending, k, |w.out|);
    }
  }

  lemma {:induction false} MessageMovesOn(w: World, m: Message)
    requires SenderInStep(w) && Moving(w) && !OnMessage(w.server, m).misbehaved
    ensures Moving(w.(server := OnMessage(w.server, m)))
  {
    if m.Data? {
      DataTouchesReceiver(w.server, m.pos, m.data);
    }
  }

  lemma {:induction false} HearMovesOn(w: World, received: Option<Message>)
    requires SenderInStep(w) && Moving(w) && !Hear(w, received).server.misbehaved
    ensures Moving(Hear(w, received))
  {
    if received.Some? {
      MessageMovesOn(w, received.value);
    }
  }

  lemma {:induction false} StepMovesOn(w: World, step: Step)
    requires Inv(w) && Moving(w) && Enabled(w, step) && !Apply(w, step).server.misbehaved
    ensures Moving(Apply(w, step))
  {
    match step {
      case SignalAck(k) => SignalMovesOn(w, k);
      case ServerRecv(i) => HearMovesOn(w, Received(w.clientSent[i]));
      case _ =>
    }
  }

  lemma {:induction false} RunMovesOn(stream: Bytes, w: World, steps: seq<Step>)
    requires Inv(w) && Streamed(stream, w) && Moving(w) && Legal(w, steps) && SendsFrom(stream, steps)
    ensures Inv(Run(w, steps)) && Streamed(stream, Run(w, steps)) && Moving(Run(w, steps))
    decreases |steps|
  {
    if steps != [] {
      SendsFromTail(stream, steps);
      StepStreams(stream, w, steps[0]);
      StepMovesOn(w, steps[0]);
      RunMovesOn(stream, Apply(w, steps[0]), steps[1..]);
    }
  }

  // ---------- one more step ----------

  /** A world from which the service can go on. */
  ghost predicate Sound(stream: Bytes, w: World) {
    && Inv(w) && Streamed(stream, w) && Moving(w) && Fits(stream)
    && !w.server.closed && !w.server.crashed && 0 <= w.curPos
  }

  lemma {:induction false} Then(stream: Bytes, v: World, step: Step) returns (w: World)
    requires Sound(stream, v) && Enabled(v, step)
    requires (step.ClientSend? ==> HonestData(stream, step.m)) && !Late(v, step) && !Apply(v, step).server.closed
    ensures w == Apply(v, step) && Reaches(stream, v, w) && Sound(stream, w)
  {
    Start(stream, v);
    w := Next(stream, v, v, step);
    StepStreams(stream, v, step);
    StepMovesOn(v, step);
    StepStopsIff(stream, v, step);
    OnlyLateAcksSink(v, step);
  }

  /** The sending half, the client and the session are as before. */
  ghost predicate SameSender(v: World, w: World) {
    && w.out == v.out && w.buf == v.buf && w.initLen == v.initLen && w.curPos == v.curPos && w.burstPos == v.burstPos
    && w.client == v.client && w.server.session == v.server.session
    && w.server.totalOut == v.server.totalOut && w.server.pending == v.server.pending
  }

  /** The lines on their way to the sender are as before. */
  ghost predicate SameLines(v: World, w: World) {
    && w.got == v.got && w.consumed == v.consumed && w.inHand == v.inHand && w.outgoing == v.outgoing
    && w.server.incoming == v.server.incoming && w.server.session == v.server.session
  }

  // ---------- the stream arrives ----------

  lemma {:induction false} NewBytesAre(e: Endpoint, p: Int32, data: Bytes)
    requires 0 <= p <= e.totalIn < p + |data| && Fits(e.buf + data[e.totalIn - p..])
    ensures NewBytes(e, Data(e.session, p, data)) == data[e.totalIn - p..]
  {
  }

  lemma SliceTail(stream: Bytes, p: nat, t: nat, n: nat)
    requires p <= t <= n <= |stream|
    ensures SliceOf(stream, t, stream[p..n][t - p..]) && |stream[p..n][t - p..]| == n - t
  {
  }

  lemma {:induction false} NewBytesReach(stream: Bytes, e: Endpoint, got: Bytes, p: Int32, n: nat)
    requires |stream| < 0x8000_0000 && Fits(stream) && e.totalIn == |got| && got <= stream && e.buf == Residual(got)
    requires 0 <= p <= |got| && p < n <= |stream|
    ensures |got + NewBytes(e, Data(e.session, p, stream[p..n]))| >= n
  {
    if |got| < n {
      SliceTail(stream, p, |got|, n);
      TailFollows(stream, e.buf, got, stream[p..n][|got| - p..]);
      NewBytesAre(e, p, stream[p..n]);
    }
  }

  lemma {:induction false} HearMore(stream: Bytes, v: World, p: Int32, n: nat)
    requires Sound(stream, v) && 0 <= p <= |v.got| && p < n <= |stream|
    ensures var w := Hear(v, Some(Data(v.server.session, p, stream[p..n])));
      |w.got| >= n && SameSender(v, w) && !w.server.closed
  {
    NewBytesReach(stream, v.server, v.got, p, n);
    DataTouchesReceiver(v.server, p, stream[p..n]);
  }

  /** What hearing a message does does not depend on what the client has sent. */
  lemma {:induction false} HearAnyway(v: World, sent: seq<Message>, m: Message)
    ensures Hear(v.(clientSent := sent), Some(m)) == Hear(v, Some(m)).(clientSent := sent)
  {
  }

  /** The client sends a packet that arrives, and the server hears it. */
  lemma {:induction false} SendAndHear(stream: Bytes, v: World, packet: Message, n: nat) returns (w: World)
    requires Sound(stream, v) && packet.session == v.server.session && packet.Data?
    requires HonestData(stream, packet) && Received(packet) == Some(packet)
    requires var h := Hear(v, Some(packet)); |h.got| >= n && SameSender(v, h) && !h.server.closed
    ensures Reaches(stream, v, w) && Sound(stream, w) && |w.got| >= n && SameSender(v, w)
  {
    HearAnyway(v, v.clientSent + [packet], packet);
    var u := Then(stream, v, ClientSend(packet));
    w := Then(stream, u, ServerRecv(|v.clientSent|));
    ReachesOn(stream, v, u, w);
  }

  /** Packets for a receiver: honest, arriving, and enough for the first n bytes. */
  lemma {:induction false} MakePacket(stream: Bytes, v: World, p: nat, n: nat) returns (packet: Message)
    requires Sound(stream, v) && Carries(stream, v.server.session, p, n) && p <= |v.got|
    ensures packet.Data? && packet.session == v.server.session && HonestData(stream, packet)
    ensures Received(packet) == Some(packet)
    ensures var h := Hear(v, Some(packet)); |h.got| >= n && SameSender(v, h) && !h.server.closed
  {
    packet := Data(v.server.session, p, stream[p..n]);
    HearMore(stream, v, p, n);
    HonestPacket(stream, v.server.session, p, n);
  }

  lemma {:induction false} HonestPacket(stream: Bytes, session: Int32, p: nat, n: nat)
    requires Carries(stream, session, p, n)
    ensures var packet := Data(session, p, stream[p..n]);
      HonestData(stream, packet) && Received(packet) == Some(packet)
  {
    CarriedArrives(stream, session, p, n);
  }

  lemma {:induction false} Packet(stream: Bytes, v: World, p: nat, n: nat) returns (w: World)
    requires Sound(stream, v) && Carries(stream, v.server.session, p, n) && p <= |v.got|
    ensures Reaches(stream, v, w) && Sound(stream, w) && |w.got| >= n && SameSender(v, w)
  {
    var packet := MakePacket(stream, v, p, n);
    w := SendAndHear(stream, v, packet, n);
  }

  lemma {:induction false} Bring(stream: Bytes, v: World, n: nat) returns (w: World)
    requires Sound(stream, v) && Deliverable(stream, v.server.session, n)
    ensures Reaches(stream, v, w) && Sound(stream, w) && |w.got| >= n && SameSender(v, w)
    decreases n
  {
    if n == 0 {
      Start(stream, v);
      w := v;
    } else {
      var session := v.server.session;
      var p: nat, m: nat :| p <= m < n && Carries(stream, session, p, n) && Deliverable(stream, session, m);
      var u := Bring(stream, v, m);
      w := Packet(stream, u, p, n);
      ReachesOn(stream, v, u, w);
    }
  }

  // ---------- the handler catches up ----------

  lemma {:induction false} Answer(stream: Bytes, v: World) returns (w: World)
    requires Sound(stream, v) && v.inHand.Some?
    ensures Reaches(stream, v, w) && Sound(stream, w) && w.inHand.None? && SameSender(v, w)
    ensures w.got == v.got && w.server.incoming == v.server.incoming
  {
    w := Then(stream, v, HandlerPut);
  }

  lemma {:induction false} CatchUp(stream: Bytes, v: World) returns (w: World)
    requires Sound(stream, v) && v.inHand.None?
    ensures Reaches(stream, v, w) && Sound(stream, w) && w.inHand.None? && w.server.incoming == [] && SameSender(v, w)
    ensures w.got == v.got
    decreases |v.server.incoming|
  {
    Start(stream, v);
    w := v;
    if v.server.incoming != [] {
      var t := Then(stream, v, HandlerTake);
      var u := Answer(stream, t);
      ReachesOn(stream, v, t, u);
      w := CatchUp(stream, u);
      ReachesOn(stream, v, u, w);
    }
  }

  // ---------- the sender finishes its buffer ----------

  lemma {:induction false} PacketShape(v: World)
    requires LinesInOrder(v) && RepliesInOrder(v) && SenderInStep(v) && 0 <= v.curPos && v.curPos + v.burstPos < |v.buf|
    ensures var m := NextPacket(v.server.session, v.initLen, v.buf, v.curPos + v.burstPos);
      m.Data? && m.data != [] && m.pos == v.initLen + v.curPos + v.burstPos && SliceOf(v.out, m.pos, m.data)
  {
    NextPacketHonest(v);
    OutBounded(v);
  }

  lemma {:induction false} PacketSent(v: World) returns (m: Message)
    requires LinesInOrder(v) && RepliesInOrder(v) && SenderInStep(v) && 0 <= v.curPos && v.curPos + v.burstPos < |v.buf|
    requires !v.server.closed && !v.server.crashed
    ensures Enabled(v, SendChunk) && Apply(v, SendChunk) == Sent(v, m)
    ensures m.Data? && m.data != [] && m.pos == v.initLen + v.curPos + v.burstPos && SliceOf(v.out, m.pos, m.data)
  {
    m := NextPacket(v.server.session, v.initLen, v.buf, v.curPos + v.burstPos);
    ChunkIsSent(v, m);
    PacketShape(v);
  }

  lemma {:induction false} ChunkIsSent(v: World, m: Message)
    requires 0 <= v.curPos && 0 <= v.burstPos && v.curPos + v.burstPos < |v.buf|
    requires !v.server.closed && !v.server.crashed
    requires m == NextPacket(v.server.session, v.initLen, v.buf, v.curPos + v.burstPos)
    ensures Enabled(v, SendChunk) && Apply(v, SendChunk) == Sent(v, m)
  {
  }

  lemma {:induction false} SentShape(v: World, m: Message)
    requires m.Data?
    ensures var w := Sent(v, m);
      && SameLines(v, w) && SameSender(v, w.(burstPos := v.burstPos)) && !Late(v, SendChunk)
      && w.server.sent == v.server.sent + [m] && w.burstPos == v.burstPos + |m.data|
      && w.server.closed == v.server.closed
  {
  }

  /** A packet of the burst. */
  lemma {:induction false} SendPacket(stream: Bytes, v: World) returns (w: World, m: Message)
    requires Sound(stream, v) && v.curPos + v.burstPos < |v.buf|
    ensures Reaches(stream, v, w) && Sound(stream, w) && SameLines(v, w)
    ensures m.Data? && m.data != [] && m.pos == v.initLen + v.curPos + v.burstPos && SliceOf(v.out, m.pos, m.data)
    ensures w.server.sent == v.server.sent + [m] && w.burstPos == v.burstPos + |m.data|
    ensures SameSender(v, w.(burstPos := v.burstPos))
  {
    m := PacketSent(v);
    SentShape(v, m);
    w := Then(stream, v, SendChunk);
  }

  /** The burst goes to its end. */
  lemma {:induction false} EndBurst(stream: Bytes, v: World) returns (w: World)
    requires Sound(stream, v) && v.curPos < |v.buf|
    ensures Reaches(stream, v, w) && Sound(stream, w) && SameLines(v, w) && Waiting(w)
    ensures SameSender(v, w.(burstPos := v.burstPos))
    decreases |v.buf| - v.curPos - v.burstPos
  {
    Start(stream, v);
    w := v;
    if v.curPos + v.burstPos < |v.buf| {
      var u, m := SendPacket(stream, v);
      w := EndBurst(stream, u);
      ReachesOn(stream, v, u, w);
    }
  }

  /** What a client that has come so far makes of the next packet. */
  lemma {:induction false} ClientGets(out: Bytes, client: Bytes, pos: Int32, data: Bytes)
    requires |out| < 0x8000_0000 && client <= out && SliceOf(out, pos, data) && pos <= |client|
    ensures var c := ClientAccepts(client, pos, data); c <= out && |c| >= pos + |data| && |c| >= |client|
  {
    ClientKeepsPrefix(out, client, pos, data);
  }

  /** The client hears a packet that continues what it has, and acknowledges it. */
  lemma {:induction false} HearPacket(stream: Bytes, v: World, i: nat) returns (w: World)
    requires Sound(stream, v) && i < |v.server.sent| && v.server.sent[i].Data?
    requires v.server.sent[i].pos <= |v.client|
    ensures Reaches(stream, v, w) && Sound(stream, w) && SameLines(v, w) && SameSender(v, w.(client := v.client))
    ensures |w.client| >= v.server.sent[i].pos + |v.server.sent[i].data|
    ensures w.clientSent != [] && w.clientSent[|w.clientSent| - 1] == Ack(w.server.session, Wrap32(|w.client|))
  {
    var m := v.server.sent[i];
    assert HonestToClient(v, m);
    OutBounded(v);
    ClientGets(v.out, v.client, m.pos, m.data);
    w := Then(stream, v, ClientRecv(i));
  }

  /** A packet that the client hears at once. */
  lemma {:induction false} DeliverPacket(stream: Bytes, v: World) returns (w: World)
    requires Sound(stream, v) && v.curPos + v.burstPos < |v.buf|
    requires |v.client| >= v.initLen + v.curPos + v.burstPos
    ensures Reaches(stream, v, w) && Sound(stream, w) && SameLines(v, w) && w.burstPos > v.burstPos
    ensures SameSender(v, w.(burstPos := v.burstPos, client := v.client))
    ensures |w.client| >= w.initLen + w.curPos + w.burstPos
    ensures w.clientSent != [] && w.clientSent[|w.clientSent| - 1] == Ack(w.server.session, Wrap32(|w.client|))
  {
    var u, m := SendPacket(stream, v);
    w := HearPacket(stream, u, |v.server.sent|);
    ReachesOn(stream, v, u, w);
  }

  /** A burst that the client hears packet by packet. */
  lemma {:induction false} DeliverBurst(stream: Bytes, v: World) returns (w: World)
    requires Sound(stream, v) && v.curPos + v.burstPos < |v.buf|
    requires |v.client| >= v.initLen + v.curPos + v.burstPos
    ensures Reaches(stream, v, w) && Sound(stream, w) && SameLines(v, w) && Waiting(w)
    ensures SameSender(v, w.(burstPos := v.burstPos, client := v.client)) && w.client == w.out
    ensures w.clientSent != [] && w.clientSent[|w.clientSent| - 1] == Ack(w.server.session, |w.out|)
    decreases |v.buf| - v.curPos - v.burstPos
  {
    w := DeliverPacket(stream, v);
    if w.curPos + w.burstPos < |w.buf| {
      var u := w;
      w := DeliverBurst(stream, u);
      ReachesOn(stream, v, u, w);
    } else {
      ClientHasAll(w);
    }
  }

  lemma {:induction false} ClientHasAll(w: World)
    requires Inv(w) && |w.client| >= w.initLen + w.curPos + w.burstPos && w.curPos + w.burstPos >= |w.buf|
    ensures w.client == w.out && Wrap32(|w.client|) == |w.out|
  {
    OutBounded(w);
  }

  /** The ack of everything is on its way. */
  ghost predicate Acked(w: World) {
    |w.out| in w.server.pending
  }

  lemma {:induction false} AckEverything(stream: Bytes, v: World) returns (w: World)
    requires Sound(stream, v) && Waiting(v) && v.server.totalOut < |v.out|
    requires |v.out| < 0x8000_0000
    requires v.clientSent != [] && v.clientSent[|v.clientSent| - 1] == Ack(v.server.session, |v.out|)
    ensures Reaches(stream, v, w) && Sound(stream, w) && SameLines(v, w) && Waiting(w) && Acked(w)
    ensures w.out == v.out
  {
    AckArrives(v.server.session, |v.out|);
    AckTaken(v);
    w := Then(stream, v, ServerRecv(|v.clientSent| - 1));
  }

  lemma {:induction false} AckTaken(v: World)
    requires SenderInStep(v) && |v.out| < 0x8000_0000 && v.server.totalOut < |v.out| && Waiting(v)
    ensures var w := Hear(v, Some(Ack(v.server.session, |v.out|)));
      && SameLines(v, w) && Waiting(w) && Acked(w) && w.out == v.out && w.server.closed == v.server.closed
  {
    AckHeard(v, v.server.session, |v.out|);
    assert (v.server.pending + [|v.out|])[|v.server.pending|] == |v.out|;
  }

  lemma {:induction false} HearEverything(stream: Bytes, v: World) returns (w: World)
    requires Sound(stream, v) && Waiting(v) && Acked(v)
    ensures Reaches(stream, v, w) && Sound(stream, w) && SameLines(v, w) && w.curPos == |w.buf| && w.out == v.out
  {
    var k :| 0 <= k < |v.server.pending| && v.server.pending[k] == |v.out|;
    SignalSender(v, k);
    w := Then(stream, v, SignalAck(k));
  }

  /** Retransmission brings the client all of the buffer, and the sender the ack. */
  lemma {:induction false} Resend(stream: Bytes, v: World) returns (w: World)
    requires Sound(stream, v) && Waiting(v) && v.server.totalOut < |v.out|
    ensures Reaches(stream, v, w) && Sound(stream, w) && SameLines(v, w) && Waiting(w) && Acked(w) && w.out == v.out
  {
    var t := Then(stream, v, Retransmit);
    var u := DeliverBurst(stream, t);
    ReachesOn(stream, v, t, u);
    OutBounded(u);
    w := AckEverything(stream, u);
    ReachesOn(stream, v, u, w);
  }

  lemma {:induction false} AwaitAck(stream: Bytes, v: World) returns (w: World)
    requires Sound(stream, v) && v.curPos < |v.buf|
    ensures Reaches(stream, v, w) && Sound(stream, w) && SameLines(v, w) && Waiting(w) && Acked(w) && w.out == v.out
  {
    w := EndBurst(stream, v);
    if !Acked(w) {
      var u := w;
      w := Resend(stream, u);
      ReachesOn(stream, v, u, w);
    }
  }

  lemma {:induction false} FinishBuffer(stream: Bytes, v: World) returns (w: World)
    requires Sound(stream, v)
    ensures Reaches(stream, v, w) && Sound(stream, w) && SameLines(v, w) && w.curPos == |w.buf| && w.out == v.out
  {
    if v.curPos == |v.buf| {
      Start(stream, v);
      w := v;
    } else {
      var u := AwaitAck(stream, v);
      w := HearEverything(stream, u);
      ReachesOn(stream, v, u, w);
    }
  }

  // ---------- and every buffer after it ----------

  lemma {:induction false} FinishAll(stream: Bytes, v: World) returns (w: World)
    requires Sound(stream, v) && v.inHand.None? && v.server.incoming == []
    ensures Reaches(stream, v, w) && Sound(stream, w) && w.inHand.None? && w.server.incoming == []
    ensures w.got == v.got && w.outgoing == [] && w.curPos == |w.buf|
    decreases |v.outgoing|
  {
    w := FinishBuffer(stream, v);
    if w.outgoing != [] {
      var t := w;
      var u := Then(stream, t, TakeBuffer);
      ReachesOn(stream, v, t, u);
      w := FinishAll(stream, u);
      ReachesOn(stream, v, u, w);
    }
  }

  /** With nothing left to do, the client has every reply. */
  lemma {:induction false} NothingLeft(stream: Bytes, w: World)
    requires Sound(stream, w) && w.inHand.None? && w.server.incoming == [] && w.outgoing == [] && w.curPos == |w.buf|
    requires w.got == stream
    ensures w.client == Replies(Lines(stream))
  {
    assert w.consumed + [] + [] == w.consumed;
    assert w.consumed[..|w.consumed|] == w.consumed;
  }

  /** The whole stream has arrived, and every line of it is answered. */
  lemma {:induction false} ReceiveAllLines(stream: Bytes, w: World) returns (v: World)
    requires Sound(stream, w) && Deliverable(stream, w.server.session, |stream|)
    ensures Reaches(stream, w, v) && Sound(stream, v) && v.got == stream && v.inHand.None? && v.server.incoming == []
  {
    var t := Bring(stream, w, |stream|);
    var u := t;
    if t.inHand.Some? {
      u := Answer(stream, t);
      ReachesOn(stream, w, t, u);
    }
    v := CatchUp(stream, u);
    ReachesOn(stream, w, u, v);
  }

  lemma {:induction false} Finish(stream: Bytes, w: World) returns (v: World)
    requires Sound(stream, w) && Deliverable(stream, w.server.session, |stream|)
    ensures Reaches(stream, w, v) && v.client == Replies(Lines(stream))
  {
    var u := ReceiveAllLines(stream, w);
    v := FinishAll(stream, u);
    ReachesOn(stream, w, u, v);
    NothingLeft(stream, v);
  }

  /**
   * From every state that a client of one stream can reach, with the session open, the lines fitting, no
   * ack heard late and the stream deliverable, some continuation ends with the client holding the replies
   * to all the lines of its stream.
   */
  lemma {:induction false} CanFinish(stream: Bytes, session: Int32, steps: seq<Step>)
    requires |stream| < 0x8000_0000 && Fits(stream) && Deliverable(stream, session, |stream|)
    requires Legal(Init(session), steps) && SendsFrom(stream, steps) && !HearsLate(Init(session), steps)
    requires !Run(Init(session), steps).server.closed
    ensures var w := Run(Init(session), steps);
      exists more ::
        Legal(w, more) && SendsFrom(stream, more) && Run(w, more).client == Replies(Lines(stream))
  {
    var w0 := Init(session);
    var w := Run(w0, steps);
    InitStreams(stream, session);
    RunMovesOn(stream, w0, steps);
    SinksIff(w0, steps);
    SameSession(w0, steps);
    var v := Finish(stream, w);
    var more :| Legal(w, more) && SendsFrom(stream, more) && Run(w, more) == v;
  }

  lemma {:induction false} SameSession(w: World, steps: seq<Step>)
    requires Legal(w, steps)
    ensures Run(w, steps).server.session == w.server.session
    decreases |steps|
  {
    if steps != [] {
      SessionStays(w, steps[0]);
      SameSession(Apply(w, steps[0]), steps[1..]);
    }
  }

  lemma {:induction false} SessionStays(w: World, step: Step)
    requires Enabled(w, step)
    ensures Apply(w, step).server.session == w.server.session
  {
    if step.ServerRecv? && Received(w.clientSent[step.i]).Some? {
      HandleKeepsSession(w.server, Received(w.clientSent[step.i]).value);
    }
  }

  lemma {:induction false} HandleKeepsSession(e: Endpoint, m: Message)
    ensures OnMessage(e, m).session == e.session
  {
    if m.Data? {
      DataTouchesReceiver(e, m.pos, m.data);
    }
  }
}
