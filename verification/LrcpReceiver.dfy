/** The LRCP receiver against the byte stream it is fed: any slicing, repetition, reordering or gap. */
module LrcpReceiver {
  import opened Bytes
  import opened Common
  import opened LrcpCodec
  import opened LrcpSession

  /** `data` is the piece of `stream` that starts at `pos`. */
  ghost predicate SliceOf(stream: Bytes, pos: int, data: Bytes) {
    0 <= pos && pos + |data| <= |stream| && data == stream[pos..pos + |data|]
  }

  /** The endpoint has cut exactly the first `totalIn` bytes, of which `taken` lines have left its channel. */
  ghost predicate HasCut(stream: Bytes, e: Endpoint, taken: seq<Bytes>) {
    && 0 <= e.totalIn <= |stream| < 0x8000_0000
    && IsCut(stream[..e.totalIn], taken + e.incoming, e.buf)
  }

  ghost predicate IsCut(s: Bytes, lines: seq<Bytes>, rest: Bytes) {
    lines == Lines(s) && rest == Residual(s)
  }

  lemma AllFitPrefix(a: seq<Bytes>, b: seq<Bytes>)
    requires AllFit(a + b)
    ensures AllFit(a) && AllFit(b)
  {
    forall i | 0 <= i < |a| ensures |a[i]| <= MAX_LINE {
      assert (a + b)[i] == a[i];
    }
    forall i | 0 <= i < |b| ensures |b[i]| <= MAX_LINE {
      assert (a + b)[|a| + i] == b[i];
    }
  }

  lemma {:induction false} ResidualFits(buf: Bytes, rest: Bytes)
    requires NEWLINE !in buf && Fits(buf + rest)
    ensures |buf| <= MAX_LINE
  {
    var k := IndexOf(rest, NEWLINE);
    if k == |rest| {
      assert rest[..k] == rest;
      NoNewline([], buf + rest);
    } else {
      CutAtNewline([], buf, rest, k);
    }
  }

  /** What fits as a whole fits piece by piece. */
  lemma FitsPrefix(a: Bytes, b: Bytes)
    requires Fits(a + b)
    ensures Fits(a) && Fits(Residual(a) + b)
  {
    LinesResume(a, b);
    LinesJoin(a);
    AllFitPrefix(Lines(a), Lines(Residual(a) + b));
    ResidualFits(Residual(a), b);
  }

  lemma FitsMiddle(a: Bytes, b: Bytes, c: Bytes)
    requires Fits(a + b + c)
    ensures Fits(Residual(a) + b)
  {
    FitsPrefix(a + b, c);
    FitsPrefix(a, b);
  }

  /** Cutting can be resumed with the bytes that follow. */
  lemma {:induction false} CutGrows(s: Bytes, lines: seq<Bytes>, rest: Bytes, tail: Bytes)
    requires IsCut(s, lines, rest)
    ensures IsCut(s + tail, lines + Lines(rest + tail), Residual(rest + tail))
  {
    LinesResume(s, tail);
  }

  /** The endpoint has cut exactly the bytes `got`, of which `taken` lines have left its channel. */
  ghost predicate CutOf(got: Bytes, e: Endpoint, taken: seq<Bytes>) {
    e.totalIn == |got| < 0x8000_0000 && IsCut(got, taken + e.incoming, e.buf)
  }

  lemma {:induction false} AcceptCuts(got: Bytes, e: Endpoint, taken: seq<Bytes>, tail: Bytes)
    requires CutOf(got, e, taken) && Fits(e.buf + tail) && |got| + |tail| < 0x8000_0000
    ensures CutOf(got + tail, Accept(e, tail), taken)
  {
    CutGrows(got, taken + e.incoming, e.buf, tail);
    ConcatAssoc(taken, e.incoming, Lines(e.buf + tail));
  }

  /** Whatever message is handled, the endpoint has cut the bytes counted before and those it added. */
  lemma {:induction false} MessageCuts(got: Bytes, e: Endpoint, taken: seq<Bytes>, m: Message)
    requires CutOf(got, e, taken) && |got + NewBytes(e, m)| < 0x8000_0000
    ensures CutOf(got + NewBytes(e, m), OnMessage(e, m), taken)
  {
    assert got + [] == got;
    if m.Data? && !Rejected(e.totalIn, m.pos, m.data) && Wrap32(e.totalIn - m.pos) >= 0 {
      var tail := m.data[Wrap32(e.totalIn - m.pos)..];
      if Fits(e.buf + tail) {
        AcceptCuts(got, e, taken, tail);
      }
    }
  }

  lemma SliceFollows(stream: Bytes, n: nat, tail: Bytes)
    requires SliceOf(stream, n, tail)
    ensures stream[..n + |tail|] == stream[..n] + tail
    ensures stream == stream[..n] + tail + stream[n + |tail|..]
  {
  }

  lemma {:induction false} CutExtends(stream: Bytes, n: nat, lines: seq<Bytes>, rest: Bytes, tail: Bytes)
    requires SliceOf(stream, n, tail) && IsCut(stream[..n], lines, rest)
    ensures IsCut(stream[..n + |tail|], lines + Lines(rest + tail), Residual(rest + tail))
    ensures Fits(stream) ==> Fits(rest + tail)
  {
    SliceFollows(stream, n, tail);
    CutGrows(stream[..n], lines, rest, tail);
    if Fits(stream) {
      FitsMiddle(stream[..n], tail, stream[n + |tail|..]);
    }
  }

  /** What the receive rule does to a slice of the stream, the wrap-around arithmetic resolved. */
  lemma OnSlice(stream: Bytes, e: Endpoint, pos: Int32, data: Bytes)
    requires 0 <= e.totalIn <= |stream| < 0x8000_0000 && SliceOf(stream, pos, data)
    ensures OnData(e, pos, data) ==
            if e.totalIn < pos || pos + |data| <= e.totalIn then e.(sent := e.sent + [Ack(e.session, e.totalIn)])
            else Accept(e, data[e.totalIn - pos..])
    ensures pos <= e.totalIn < pos + |data| ==> SliceOf(stream, e.totalIn, data[e.totalIn - pos..])
  {
  }

  lemma AcceptKeepsCut(stream: Bytes, e: Endpoint, taken: seq<Bytes>, tail: Bytes)
    requires HasCut(stream, e, taken) && SliceOf(stream, e.totalIn, tail) && !e.crashed
    ensures var e' := Accept(e, tail);
      if e'.crashed then !Fits(stream)
      else
        && HasCut(stream, e', taken)
        && e'.totalIn == e.totalIn + |tail|
        && e'.sent == e.sent + [Ack(e.session, e'.totalIn)]
  {
    CutExtends(stream, e.totalIn, taken + e.incoming, e.buf, tail);
    ConcatAssoc(taken, e.incoming, Lines(e.buf + tail));
  }

  /** One data message: nothing is lost or repeated, and the acknowledgement names the prefix held. */
  lemma DataKeepsCut(stream: Bytes, e: Endpoint, taken: seq<Bytes>, pos: Int32, data: Bytes)
    requires HasCut(stream, e, taken) && SliceOf(stream, pos, data) && !e.crashed
    ensures var e' := OnData(e, pos, data);
      if e'.crashed then !Fits(stream)
      else
        && HasCut(stream, e', taken)
        && e'.totalIn == Max(e.totalIn, if pos <= e.totalIn then pos + |data| else 0)
        && e'.sent == e.sent + [Ack(e.session, e'.totalIn)]
  {
    OnSlice(stream, e, pos, data);
    if pos <= e.totalIn < pos + |data| {
      AcceptKeepsCut(stream, e, taken, data[e.totalIn - pos..]);
    }
  }

  datatype Slice = Slice(pos: Int32, data: Bytes)

  /** Data messages handled one after the other, until the program stops. */
  ghost function ReceiveAll(e: Endpoint, slices: seq<Slice>): Endpoint
    decreases |slices|
  {
    if slices == [] || e.crashed then e
    else ReceiveAll(OnData(e, slices[0].pos, slices[0].data), slices[1..])
  }

  /** The acks of a run: one per data message, never decreasing, each at most what is held in the end. */
  ghost predicate AcksClimb(e: Endpoint, from: int) {
    && (forall i :: 0 <= i < |e.sent| ==> e.sent[i].Ack? && from <= e.sent[i].length <= e.totalIn)
    && (forall i, j :: 0 <= i < j < |e.sent| ==> e.sent[i].length <= e.sent[j].length)
  }

  lemma {:induction false} ReceiveAllFrom(stream: Bytes, e: Endpoint, slices: seq<Slice>)
    requires HasCut(stream, e, []) && !e.crashed && AcksClimb(e, 0)
    requires forall i :: 0 <= i < |slices| ==> SliceOf(stream, slices[i].pos, slices[i].data)
    ensures var e' := ReceiveAll(e, slices);
      if e'.crashed then !Fits(stream)
      else HasCut(stream, e', []) && AcksClimb(e', 0) && |e'.sent| == |e.sent| + |slices|
    decreases |slices|
  {
    if slices != [] {
      var next := OnData(e, slices[0].pos, slices[0].data);
      DataKeepsCut(stream, e, [], slices[0].pos, slices[0].data);
      if !next.crashed {
        ReceiveAllFrom(stream, next, slices[1..]);
      }
    }
  }

  /**
   * However one byte stream is sliced, repeated, reordered or gapped, the emitted lines and the
   * residual are the newline split of the prefix acknowledged so far, and acks never decrease.
   */
  lemma ReceiverSplitsStream(stream: Bytes, session: Int32, slices: seq<Slice>)
    requires |stream| < 0x8000_0000
    requires forall i :: 0 <= i < |slices| ==> SliceOf(stream, slices[i].pos, slices[i].data)
    ensures var e := ReceiveAll(Fresh(session), slices);
      !e.crashed ==>
        && 0 <= e.totalIn <= |stream|
        && e.incoming == Lines(stream[..e.totalIn]) && e.buf == Residual(stream[..e.totalIn])
        && Unlines(e.incoming) + e.buf == stream[..e.totalIn]
        && |e.sent| == |slices| && AcksClimb(e, 0)
  {
    ReceiveAllFrom(stream, Fresh(session), slices);
    var e := ReceiveAll(Fresh(session), slices);
    if !e.crashed {
      assert [] + e.incoming == e.incoming;
      LinesJoin(stream[..e.totalIn]);
    }
  }

  // ---------- packets on the wire ----------

  /** Datagrams handled one after the other, until the program stops. */
  ghost function DeliverAll(e: Endpoint, packets: seq<Message>): Endpoint
    decreases |packets|
  {
    if packets == [] || e.crashed then e else DeliverAll(Deliver(e, packets[0]), packets[1..])
  }

  lemma {:induction false} DeliverAllSnoc(e: Endpoint, packets: seq<Message>, m: Message)
    ensures var e' := DeliverAll(e, packets);
      DeliverAll(e, packets + [m]) == if e'.crashed then e' else Deliver(e', m)
    decreases |packets|
  {
    var all := packets + [m];
    if packets == [] {
      assert all == [m] && all[1..] == [];
    } else {
      assert all[0] == packets[0] && all[1..] == packets[1..] + [m];
      if !e.crashed {
        DeliverAllSnoc(Deliver(e, packets[0]), packets[1..], m);
      }
    }
  }

  /** Packets of a session that carry slices of one stream. */
  ghost predicate PacketsOf(stream: Bytes, session: Int32, packets: seq<Message>) {
    forall i :: 0 <= i < |packets| ==>
      packets[i].Data? && packets[i].session == session && SliceOf(stream, packets[i].pos, packets[i].data)
  }

  predicate AllUndistorted(packets: seq<Message>) {
    forall i :: 0 <= i < |packets| ==> Undistorted(packets[i])
  }

  /** The packet with the bytes of the stream from p to n arrives, as it was sent. */
  predicate Carries(stream: Bytes, session: Int32, p: nat, n: nat) {
    && p < n <= |stream| < 0x8000_0000 && Clean(stream[p..n])
    && |Encode(Data(session, p, stream[p..n]))| <= MTU
  }

  /** The first n bytes of the stream can be brought to the receiver, and no more at that moment. */
  ghost predicate Deliverable(stream: Bytes, session: Int32, n: nat)
    decreases n
  {
    n == 0 || exists p: nat, m: nat :: p <= m < n && Carries(stream, session, p, n) && Deliverable(stream, session, m)
  }

  lemma {:induction false} CarriedIff(stream: Bytes, m: Message)
    requires |stream| < 0x8000_0000 && m.Data? && SliceOf(stream, m.pos, m.data) && m.data != []
    ensures Carries(stream, m.session, m.pos, m.pos + |m.data|) <==> Received(m) == Some(m)
  {
    ReceivedIff(m);
  }

  /** A part of the stream that can be brought to the receiver does not fit. */
  ghost predicate TooLong(stream: Bytes, session: Int32, n: nat) {
    n <= |stream| && Deliverable(stream, session, n) && !Fits(stream[..n])
  }

  /** Of the bytes from pos to n: they stop the receiver, or it holds the first n bytes, or nothing happens. */
  ghost predicate Outcome(stream: Bytes, e: Endpoint, taken: seq<Bytes>, e': Endpoint, pos: int, n: int) {
    && e'.session == e.session
    && if e'.crashed then 0 <= pos <= e.totalIn < n <= |stream| && !Fits(stream[..n])
       else HasCut(stream, e', taken) && e'.totalIn == if pos <= e.totalIn < n then n else e.totalIn
  }

  lemma {:induction false} DataOutcome(stream: Bytes, e: Endpoint, taken: seq<Bytes>, pos: Int32, data: Bytes)
    requires HasCut(stream, e, taken) && !e.crashed && SliceOf(stream, pos, data)
    ensures Outcome(stream, e, taken, OnData(e, pos, data), pos, pos + |data|)
  {
    OnSlice(stream, e, pos, data);
    if pos <= e.totalIn < pos + |data| {
      TailOutcome(stream, e, taken, pos, data[e.totalIn - pos..]);
    }
  }

  lemma {:induction false} TailOutcome(stream: Bytes, e: Endpoint, taken: seq<Bytes>, pos: Int32, tail: Bytes)
    requires HasCut(stream, e, taken) && !e.crashed && SliceOf(stream, e.totalIn, tail) && 0 <= pos <= e.totalIn
    requires tail != []
    ensures Outcome(stream, e, taken, Accept(e, tail), pos, e.totalIn + |tail|)
  {
    AcceptKeepsCut(stream, e, taken, tail);
    if Accept(e, tail).crashed {
      StopIsTooLong(stream, e, taken, tail);
    }
  }

  /** Given some positions, the receiver holds the stream up to one of them, or has met one where it does not fit. */
  ghost predicate HeldAt(stream: Bytes, at: set<nat>, e: Endpoint, taken: seq<Bytes>) {
    if e.crashed then exists n :: OverAt(stream, at, n)
    else HasCut(stream, e, taken) && e.totalIn in at
  }

  ghost predicate OverAt(stream: Bytes, at: set<nat>, n: nat) {
    n in at && n <= |stream| && !Fits(stream[..n])
  }

  lemma {:induction false} OutcomeHeld(stream: Bytes, at: set<nat>, e: Endpoint, taken: seq<Bytes>, e': Endpoint,
                                       pos: int, n: int)
    requires 0 <= e.totalIn && e.totalIn in at && Outcome(stream, e, taken, e', pos, n)
    requires pos <= e.totalIn < n ==> n in at
    ensures HeldAt(stream, at, e', taken)
  {
    if e'.crashed {
      assert OverAt(stream, at, n);
    }
  }

  lemma {:induction false} DataHeld(stream: Bytes, at: set<nat>, e: Endpoint, taken: seq<Bytes>, pos: Int32,
                                    data: Bytes)
    requires !e.crashed && HeldAt(stream, at, e, taken) && SliceOf(stream, pos, data)
    requires pos <= e.totalIn < pos + |data| ==> pos + |data| in at
    ensures HeldAt(stream, at, OnData(e, pos, data), taken) && OnData(e, pos, data).session == e.session
  {
    DataOutcome(stream, e, taken, pos, data);
    OutcomeHeld(stream, at, e, taken, OnData(e, pos, data), pos, pos + |data|);
  }

  lemma {:induction false} PacketHeld(stream: Bytes, at: set<nat>, e: Endpoint, taken: seq<Bytes>, m: Message,
                                      r: Option<Message>)
    requires !e.crashed && HeldAt(stream, at, e, taken) && m.Data? && SliceOf(stream, m.pos, m.data)
    requires r == None || r == Some(m)
    requires r.Some? && m.pos <= e.totalIn < m.pos + |m.data| ==> m.pos + |m.data| in at
    ensures HeldAt(stream, at, Handle(e, r), taken) && Handle(e, r).session == e.session
  {
    if r.Some? {
      DataHeld(stream, at, e, taken, m.pos, m.data);
    }
  }

  /** The parts of the stream that can be brought to the receiver. */
  ghost function DeliverableParts(stream: Bytes, session: Int32): set<nat> {
    set n: nat | n <= |stream| && Deliverable(stream, session, n)
  }

  /** An undistorted packet is lost, or arrives and extends one such part to another. */
  lemma {:induction false} PacketExtends(stream: Bytes, session: Int32, m: Message, t: nat)
    requires |stream| < 0x8000_0000 && m.Data? && m.session == session && SliceOf(stream, m.pos, m.data)
    requires Undistorted(m) && t in DeliverableParts(stream, session)
    ensures Received(m) == None || Received(m) == Some(m)
    ensures Received(m).Some? && m.pos <= t < m.pos + |m.data| ==> m.pos + |m.data| in DeliverableParts(stream, session)
  {
    LostOrWhole(m);
    if Received(m).Some? && m.pos <= t < m.pos + |m.data| {
      CarriedExtends(stream, m, t);
    }
  }

  lemma {:induction false} LostOrWhole(m: Message)
    requires m.Data? && Undistorted(m)
    ensures Received(m) == None || Received(m) == Some(m)
  {
    ReceivedIff(m);
  }

  lemma {:induction false} CarriedExtends(stream: Bytes, m: Message, t: nat)
    requires |stream| < 0x8000_0000 && m.Data? && SliceOf(stream, m.pos, m.data) && Received(m) == Some(m)
    requires m.pos <= t < m.pos + |m.data| && Deliverable(stream, m.session, t)
    ensures Deliverable(stream, m.session, m.pos + |m.data|)
  {
    CarriedIff(stream, m);
    DeliverableStep(stream, m.session, m.pos, t, m.pos + |m.data|);
  }

  lemma {:induction false} DeliverableStep(stream: Bytes, session: Int32, p: nat, m: nat, n: nat)
    requires p <= m < n && Carries(stream, session, p, n) && Deliverable(stream, session, m)
    ensures Deliverable(stream, session, n)
  {
  }

  lemma {:induction false} StopIsTooLong(stream: Bytes, e: Endpoint, taken: seq<Bytes>, tail: Bytes)
    requires HasCut(stream, e, taken) && SliceOf(stream, e.totalIn, tail) && !Fits(e.buf + tail)
    ensures !Fits(stream[..e.totalIn + |tail|])
  {
    var t := e.totalIn;
    assert stream[..t + |tail|] == stream[..t] + tail;
    if Fits(stream[..t + |tail|]) {
      FitsPrefix(stream[..t], tail);
    }
  }

  lemma {:induction false} PacketsHeld(stream: Bytes, e: Endpoint, packets: seq<Message>)
    requires |stream| < 0x8000_0000 && !e.crashed && HeldAt(stream, DeliverableParts(stream, e.session), e, [])
    requires PacketsOf(stream, e.session, packets) && AllUndistorted(packets)
    ensures HeldAt(stream, DeliverableParts(stream, e.session), DeliverAll(e, packets), [])
    decreases |packets|
  {
    if packets != [] {
      var m, rest, at := packets[0], packets[1..], DeliverableParts(stream, e.session);
      var next := Deliver(e, m);
      PacketExtends(stream, e.session, m, e.totalIn);
      PacketHeld(stream, at, e, [], m, Received(m));
      assert forall i :: 0 <= i < |rest| ==> rest[i] == packets[i + 1];
      if !next.crashed {
        PacketsHeld(stream, next, rest);
      }
    }
  }

  /** A receiver that holds part of the stream, all of whose lines fit so far. */
  ghost predicate Holds(stream: Bytes, e: Endpoint, n: nat) {
    HasCut(stream, e, []) && !e.crashed && n <= e.totalIn && Fits(stream[..e.totalIn])
  }

  lemma {:induction false} DataTaken(stream: Bytes, e: Endpoint, p: Int32, m: nat, n: nat)
    requires Holds(stream, e, m) && 0 <= p <= m < n <= |stream|
    ensures var e' := OnData(e, p, stream[p..n]); e'.crashed || (Holds(stream, e', n) && e'.session == e.session)
  {
    var t := e.totalIn;
    DataOutcome(stream, e, [], p, stream[p..n]);
    if t < n && !OnData(e, p, stream[p..n]).crashed {
      TakenFits(stream, e, p, n);
    }
  }

  lemma {:induction false} TakenFits(stream: Bytes, e: Endpoint, p: Int32, n: nat)
    requires HasCut(stream, e, []) && Fits(stream[..e.totalIn]) && 0 <= p <= e.totalIn < n <= |stream|
    requires !e.crashed && !OnData(e, p, stream[p..n]).crashed
    ensures Fits(stream[..n])
  {
    var t := e.totalIn;
    OnSlice(stream, e, p, stream[p..n]);
    TailOf(stream, p, t, n);
    FitsResume(stream[..t], stream[p..n][t - p..]);
  }

  lemma TailOf(stream: Bytes, p: nat, t: nat, n: nat)
    requires p <= t <= n <= |stream|
    ensures stream[..t] + stream[p..n][t - p..] == stream[..n]
  {
  }

  /** A receiver that holds enough of what comes before a packet takes the packet, or stops. */
  lemma {:induction false} PacketTaken(stream: Bytes, e: Endpoint, p: Int32, m: nat, n: nat)
    requires Holds(stream, e, m) && 0 <= p <= m < n <= |stream|
    ensures var e' := Handle(e, Some(Data(e.session, p, stream[p..n])));
      e'.crashed || (Holds(stream, e', n) && e'.session == e.session)
  {
    DataTaken(stream, e, p, m, n);
  }

  lemma {:induction false} CarriedArrives(stream: Bytes, session: Int32, p: nat, n: nat)
    requires Carries(stream, session, p, n)
    ensures var packet := Data(session, p, stream[p..n]); Received(packet) == Some(packet) && Undistorted(packet)
  {
    ReceivedIff(Data(session, p, stream[p..n]));
  }

  /** These packets of the stream arrive as they were sent. */
  ghost predicate Arriving(stream: Bytes, session: Int32, packets: seq<Message>) {
    && PacketsOf(stream, session, packets)
    && forall i :: 0 <= i < |packets| ==> Received(packets[i]) == Some(packets[i]) && Undistorted(packets[i])
  }

  ghost predicate Brings(stream: Bytes, session: Int32, packets: seq<Message>, n: nat) {
    var e := DeliverAll(Fresh(session), packets);
    e.crashed || (Holds(stream, e, n) && e.session == session)
  }

  lemma {:induction false} OneMoreArrives(stream: Bytes, session: Int32, before: seq<Message>, p: nat, n: nat)
    requires Carries(stream, session, p, n) && Arriving(stream, session, before)
    ensures Arriving(stream, session, before + [Data(session, p, stream[p..n])])
  {
    CarriedArrives(stream, session, p, n);
  }

  lemma {:induction false} OneMoreBrings(stream: Bytes, session: Int32, before: seq<Message>, p: nat, m: nat, n: nat)
    requires p <= m < n && Carries(stream, session, p, n) && Brings(stream, session, before, m)
    ensures Brings(stream, session, before + [Data(session, p, stream[p..n])], n)
  {
    var e := DeliverAll(Fresh(session), before);
    DeliverAllSnoc(Fresh(session), before, Data(session, p, stream[p..n]));
    CarriedArrives(stream, session, p, n);
    if !e.crashed {
      PacketTaken(stream, e, p, m, n);
    }
  }

  /** Packets that bring the first n bytes of the stream, if the receiver does not stop before. */
  lemma {:induction false} PathTo(stream: Bytes, session: Int32, n: nat) returns (packets: seq<Message>)
    requires n <= |stream| < 0x8000_0000 && Deliverable(stream, session, n)
    ensures Arriving(stream, session, packets) && Brings(stream, session, packets, n)
    decreases n
  {
    if n == 0 {
      packets := [];
      assert stream[..0] == [];
      NoNewline([], []);
    } else {
      var p: nat, m: nat :| p <= m < n && Carries(stream, session, p, n) && Deliverable(stream, session, m);
      var before := PathTo(stream, session, m);
      OneMoreArrives(stream, session, before, p, n);
      OneMoreBrings(stream, session, before, p, m, n);
      packets := before + [Data(session, p, stream[p..n])];
    }
  }

  lemma AllFitConcat(a: seq<Bytes>, b: seq<Bytes>)
    requires AllFit(a) && AllFit(b)
    ensures AllFit(a + b)
  {
  }

  /** A stream fits if its first part does and the rest does after what that part left over. */
  lemma FitsResume(a: Bytes, b: Bytes)
    requires Fits(a) && Fits(Residual(a) + b)
    ensures Fits(a + b)
  {
    LinesResume(a, b);
    AllFitConcat(Lines(a), Lines(Residual(a) + b));
  }

  lemma {:induction false} PrefixFits(stream: Bytes, m: nat, n: nat)
    requires m <= n <= |stream| && Fits(stream[..n])
    ensures Fits(stream[..m])
  {
    assert stream[..n] == stream[..m] + stream[m..n];
    FitsPrefix(stream[..m], stream[m..n]);
  }

  /** Some packets of the stream, none of them distorted, stop the receiver. */
  ghost predicate Stoppable(stream: Bytes, session: Int32) {
    exists packets ::
      PacketsOf(stream, session, packets) && AllUndistorted(packets) && DeliverAll(Fresh(session), packets).crashed
  }

  /**
   * Undistorted packets of a stream can stop the receiver exactly when some part of the stream that can
   * be brought to it has a line, or a residual, that is too long.
   */
  lemma {:induction false} ReceiverCrashIff(stream: Bytes, session: Int32)
    requires |stream| < 0x8000_0000
    ensures Stoppable(stream, session) <==>
      exists n :: TooLong(stream, session, n)
  {
    if Stoppable(stream, session) {
      var packets :| PacketsOf(stream, session, packets) && AllUndistorted(packets)
                     && DeliverAll(Fresh(session), packets).crashed;
      var at := DeliverableParts(stream, session);
      assert stream[..0] == [];
      NoNewline([], []);
      PacketsHeld(stream, Fresh(session), packets);
      var n :| OverAt(stream, at, n);
      assert TooLong(stream, session, n);
    }
    if n :| TooLong(stream, session, n) {
      var packets := PathTo(stream, session, n);
      var e := DeliverAll(Fresh(session), packets);
      if !e.crashed {
        PrefixFits(stream, n, e.totalIn);
      }
    }
  }

  /** A stream whose lines all fit is safe from undistorted packets. */
  lemma {:induction false} FittingStreamIsSafe(stream: Bytes, session: Int32)
    requires |stream| < 0x8000_0000 && Fits(stream)
    ensures !Stoppable(stream, session)
  {
    ReceiverCrashIff(stream, session);
    assert stream[..|stream|] == stream;
    if n :| TooLong(stream, session, n) {
      PrefixFits(stream, n, |stream|);
    }
  }

  // ---------- streams without slashes and backslashes ----------

  /** No byte needs escaping. */
  predicate Plain(d: Bytes) {
    forall i :: 0 <= i < |d| ==> !Special(d[i])
  }

  lemma {:induction false} SingleFits(session: Int32, pos: Int32, b: Byte)
    ensures MarshalSize(Data(session, pos, [b])) <= MTU && |Encode(Data(session, pos, [b]))| <= MTU
  {
    Int32Digits(session);
    Int32Digits(pos);
    EscapeAtMostDoubles([b]);
    AcceptedFits(Data(session, pos, [b]));
  }

  lemma {:induction false} PlainIsDeliverable(stream: Bytes, session: Int32, n: nat)
    requires Plain(stream) && n <= |stream| < 0x8000_0000
    ensures Deliverable(stream, session, n)
    decreases n
  {
    if n > 0 {
      PlainIsDeliverable(stream, session, n - 1);
      SingleCarries(stream, session, n - 1);
    }
  }

  lemma {:induction false} SingleCarries(stream: Bytes, session: Int32, p: nat)
    requires Plain(stream) && p < |stream| < 0x8000_0000
    ensures Carries(stream, session, p, p + 1)
  {
    assert stream[p..p + 1] == [stream[p]];
    SingleFits(session, p, stream[p]);
  }

  /** Some 10,001 bytes in a row are free of newlines. */
  ghost predicate LongStretch(s: Bytes) {
    exists i :: StretchAt(s, i)
  }

  predicate StretchAt(s: Bytes, i: nat) {
    i + 10_001 <= |s| && NEWLINE !in s[i..i + 10_001]
  }

  lemma {:induction false} StretchMoves(s: Bytes, k: nat, i: nat)
    requires k < |s| && k < i
    ensures StretchAt(s, i) <==> StretchAt(s[k + 1..], i - k - 1)
  {
    if i + 10_001 <= |s| {
      assert s[i..i + 10_001] == s[k + 1..][i - k - 1..i - k - 1 + 10_001];
    }
  }

  lemma {:induction false} StretchInLine(s: Bytes, k: nat, i: nat)
    requires i <= k < i + 10_001 && k < |s| && s[k] == NEWLINE
    ensures !StretchAt(s, i)
  {
    if i + 10_001 <= |s| {
      assert s[i..i + 10_001][k - i] == NEWLINE;
    }
  }

  lemma {:induction false} FreeStart(s: Bytes, k: nat)
    requires 10_000 < k <= |s| && NEWLINE !in s[..k]
    ensures StretchAt(s, 0)
  {
    forall j | 0 <= j < 10_001 ensures s[0..10_001][j] != NEWLINE {
      assert s[..k][j] != NEWLINE;
    }
  }

  /** A byte string fits the line buffer exactly when it has no such stretch. */
  lemma {:induction false} FitsIff(s: Bytes)
    ensures Fits(s) <==> !LongStretch(s)
    decreases |s|
  {
    var k := IndexOf(s, NEWLINE);
    if k > 10_000 {
      FreeStart(s, k);
    }
    if k == |s| {
      NoNewline([], s);
    } else {
      var rest := s[k + 1..];
      FitsIff(rest);
      AllFitCons(s[..k], Lines(rest));
      if LongStretch(rest) {
        var j :| StretchAt(rest, j);
        StretchMoves(s, k, j + k + 1);
      }
      if i :| StretchAt(s, i) {
        if k < i {
          StretchMoves(s, k, i);
        } else if k < i + 10_001 {
          StretchInLine(s, k, i);
        }
      }
    }
  }

  /** Without slashes and backslashes the condition is that a line or the residual is too long. */
  lemma {:induction false} PlainCrashIff(stream: Bytes, session: Int32)
    requires |stream| < 0x8000_0000 && Plain(stream)
    ensures Stoppable(stream, session) <==> LongStretch(stream)
  {
    FitsIff(stream);
    if Fits(stream) {
      FittingStreamIsSafe(stream, session);
    } else {
      ReceiverCrashIff(stream, session);
      PlainIsDeliverable(stream, session, |stream|);
      assert stream[..|stream|] == stream;
      assert TooLong(stream, session, |stream|);
    }
  }

  // ---------- distorted packets ----------

  /** A stream cut into packets of one byte, from position n on. */
  ghost function Singles(session: Int32, stream: Bytes, n: nat): seq<Message>
    requires n <= |stream| < 0x8000_0000
    decreases |stream| - n
  {
    if n == |stream| then [] else [Data(session, n, [stream[n]])] + Singles(session, stream, n + 1)
  }

  lemma {:induction false} SinglesAt(session: Int32, stream: Bytes, n: nat, i: nat)
    requires n <= |stream| < 0x8000_0000 && i < |Singles(session, stream, n)|
    ensures n + i < |stream| && Singles(session, stream, n)[i] == Data(session, n + i, [stream[n + i]])
    decreases |stream| - n
  {
    if n < |stream| && i > 0 {
      SinglesAt(session, stream, n + 1, i - 1);
    }
  }

  predicate AllSlashes(s: Bytes) {
    forall i :: 0 <= i < |s| ==> s[i] == SLASH
  }

  /** A packet with one slash arrives as a backslash and a slash. */
  lemma {:induction false} SlashDistorted(session: Int32, pos: Int32)
    ensures Received(Data(session, pos, [SLASH])) == Some(Data(session, pos, [BACKSLASH, SLASH]))
  {
    var m := Data(session, pos, [SLASH]);
    SingleFits(session, pos, SLASH);
    WholeDatagram(m);
    DataDecoded(m);
    EscapedSlash();
  }

  lemma EscapedSlash()
    ensures Unescape(None, Escape([SLASH])) == [BACKSLASH, SLASH]
  {
    var e := [BACKSLASH, SLASH];
    assert [SLASH][1..] == [] && Escape([]) == [];
    assert Escape([SLASH]) == e + [];
    assert e[1..] == [SLASH];
    assert Unescape(Some(SLASH), []) == [];
    assert Unescape(Some(BACKSLASH), [SLASH]) == [SLASH];
    assert Unescape(None, e) == [BACKSLASH] + [SLASH];
  }

  /** A receiver that holds n + 1 bytes of junk, all on one line, for n bytes of the stream. */
  ghost predicate OneAhead(e: Endpoint, n: nat) {
    !e.crashed && e.totalIn == |e.buf| == n + 1 && NEWLINE !in e.buf
  }

  lemma {:induction false} SlashTaken(e: Endpoint, n: nat)
    requires 0 < n && OneAhead(e, n) && n + 2 < 0x8000_0000
    ensures var e' := Deliver(e, Data(e.session, n, [SLASH]));
      if n + 2 <= MAX_LINE then OneAhead(e', n + 1) && e'.session == e.session else e'.crashed
  {
    SlashDistorted(e.session, n);
    assert [BACKSLASH, SLASH][1..] == [SLASH];
    NoNewline([], e.buf + [SLASH]);
  }

  lemma {:induction false} SlashesStop(e: Endpoint, stream: Bytes, n: nat)
    requires AllSlashes(stream) && |stream| == MAX_LINE && 0 < n < |stream| && OneAhead(e, n)
    ensures DeliverAll(e, Singles(e.session, stream, n)).crashed
    decreases |stream| - n
  {
    var packets := Singles(e.session, stream, n);
    assert packets[0] == Data(e.session, n, [SLASH]) && packets[1..] == Singles(e.session, stream, n + 1);
    SlashTaken(e, n);
    if n + 2 <= MAX_LINE {
      SlashesStop(Deliver(e, packets[0]), stream, n + 1);
    }
  }

  lemma {:induction false} SinglesArePackets(session: Int32, stream: Bytes)
    requires |stream| < 0x8000_0000
    ensures PacketsOf(stream, session, Singles(session, stream, 0))
  {
    var packets := Singles(session, stream, 0);
    forall i | 0 <= i < |packets|
      ensures packets[i].Data? && packets[i].session == session && SliceOf(stream, packets[i].pos, packets[i].data)
    {
      SinglesAt(session, stream, 0, i);
    }
  }

  lemma {:induction false} FirstSlash(session: Int32)
    ensures var e := Deliver(Fresh(session), Data(session, 0, [SLASH])); OneAhead(e, 1) && e.session == session
  {
    var d := [BACKSLASH, SLASH];
    SlashDistorted(session, 0);
    NoNewline([], d);
    assert [] + d == d && d[0..] == d;
  }

  /**
   * Distorted packets are another matter: 10,000 slashes fit, and no undistorted packets of them stop
   * the receiver; sent one by one, they do.
   */
  lemma {:induction false} SlashStreamStops(stream: Bytes, session: Int32)
    requires AllSlashes(stream) && |stream| == MAX_LINE
    ensures Fits(stream) && !Stoppable(stream, session)
    ensures PacketsOf(stream, session, Singles(session, stream, 0))
    ensures DeliverAll(Fresh(session), Singles(session, stream, 0)).crashed
  {
    NoNewline([], stream);
    FittingStreamIsSafe(stream, session);
    SinglesArePackets(session, stream);
    var packets := Singles(session, stream, 0);
    assert packets[0] == Data(session, 0, [SLASH]) && packets[1..] == Singles(session, stream, 1);
    FirstSlash(session);
    var e := Deliver(Fresh(session), packets[0]);
    SlashesStop(e, stream, 1);
  }
}
