/**
 * What the server of the line-reversal service answers: a connect and every data message it survives by
 * one ack of the bytes then counted, an ack by nothing, a close by one close message, its last.
 */
module LrcpAnswers {
  import opened Bytes
  import opened Common
  import opened LrcpCodec
  import opened LrcpSession
  import opened LrcpReceiver
  import opened LrcpNetwork

  lemma {:induction false} StepKeepsSession(w: World, step: Step)
    requires Enabled(w, step)
    ensures Apply(w, step).server.session == w.server.session
  {
  }

  lemma {:induction false} RunKeepsSession(w: World, steps: seq<Step>)
    requires Legal(w, steps)
    ensures Run(w, steps).server.session == w.server.session
    decreases |steps|
  {
    if steps != [] {
      StepKeepsSession(w, steps[0]);
      RunKeepsSession(Apply(w, steps[0]), steps[1..]);
    }
  }

  /** Connected again, the server says how much it has, and nothing else changes. */
  ghost predicate AnswersConnect(session: Int32, w: World, w': World) {
    |w.got| < 0x8000_0000 && w' == w.(server := w.server.(sent := w.server.sent + [Ack(session, |w.got|)]))
  }

  /** Data touches only the receiving half; unless it stops the program, one ack of all bytes counted answers it. */
  ghost predicate AnswersData(session: Int32, w: World, w': World) {
    && w.got <= w'.got && |w'.got| < 0x8000_0000
    && w' == w.(got := w'.got,
                server := w.server.(totalIn := w'.server.totalIn, buf := w'.server.buf, incoming := w'.server.incoming,
                                    sent := w'.server.sent, crashed := w'.server.crashed))
    && (w'.server.crashed ==> w'.got == w.got && w'.server.sent == w.server.sent)
    && (!w'.server.crashed ==> w'.server.sent == w.server.sent + [Ack(session, |w'.got|)])
  }

  /** An ack that is new is noted and handed to the sender; one that is not changes nothing. */
  ghost predicate AnswersAck(length: Int32, w: World, w': World) {
    if length <= w.server.totalOut then w' == w
    else w' == w.(server := w.server.(totalOut := length, pending := w.server.pending + [length]))
  }

  ghost predicate AnswersClose(session: Int32, w: World, w': World) {
    w' == w.(server := w.server.(closed := true, sent := w.server.sent + [Close(session)]))
  }

  ghost predicate Answers(session: Int32, received: Option<Message>, w: World, w': World) {
    match received
    case None => w' == w
    case Some(Connect(_)) => AnswersConnect(session, w, w')
    case Some(Data(_, _, _)) => AnswersData(session, w, w')
    case Some(Ack(_, length)) => AnswersAck(length, w, w')
    case Some(Close(_)) => AnswersClose(session, w, w')
  }

  lemma {:induction false} DataAnswered(w: World, m: Message)
    requires m.Data? && Inv(w) && !w.server.crashed && |Hear(w, Some(m)).got| < 0x8000_0000
    ensures AnswersData(w.server.session, w, Hear(w, Some(m)))
  {
    MessageCuts(w.got, w.server, w.consumed + Held(w), m);
    assert w.got + [] == w.got;
  }

  /** Whatever has happened before, an open server answers what reaches it like this. */
  lemma {:induction false} ServerAnswers(session: Int32, steps: seq<Step>, i: nat)
    requires Legal(Init(session), steps) && Enabled(Run(Init(session), steps), ServerRecv(i))
    requires |Apply(Run(Init(session), steps), ServerRecv(i)).got| < 0x8000_0000
    ensures var w := Run(Init(session), steps);
      Answers(session, Received(w.clientSent[i]), w, Apply(w, ServerRecv(i)))
  {
    var w := Run(Init(session), steps);
    RunKeepsSession(Init(session), steps);
    GotGrows(w, ServerRecv(i));
    InitInv(session);
    RunKeeps(Init(session), steps);
    var received := Received(w.clientSent[i]);
    if received == None {
      LossKeeps(w);
    } else if received.value.Data? {
      DataAnswered(w, received.value);
    } else {
      NothingNew(w, received.value);
      AcksArriveAsSent(w.clientSent[i]);
    }
  }

  // ---------- one close message at most ----------

  /** A close message is the last message of a closed session. */
  ghost predicate CloseIsLast(w: World) {
    forall k :: 0 <= k < |w.server.sent| && w.server.sent[k].Close? ==>
      w.server.closed && k == |w.server.sent| - 1 && w.server.sent[k] == Close(w.server.session)
  }

  lemma {:induction false} HearKeepsLast(w: World, received: Option<Message>)
    requires CloseIsLast(w) && !w.server.closed
    ensures CloseIsLast(Hear(w, received))
  {
  }

  lemma {:induction false} StepKeepsLast(w: World, step: Step)
    requires CloseIsLast(w) && Enabled(w, step)
    ensures CloseIsLast(Apply(w, step))
  {
    if step.ServerRecv? {
      HearKeepsLast(w, Received(w.clientSent[step.i]));
    }
  }

  lemma {:induction false} RunKeepsLast(w: World, steps: seq<Step>)
    requires CloseIsLast(w) && Legal(w, steps)
    ensures CloseIsLast(Run(w, steps))
    decreases |steps|
  {
    if steps != [] {
      StepKeepsLast(w, steps[0]);
      RunKeepsLast(Apply(w, steps[0]), steps[1..]);
    }
  }

  ghost function Closes(sent: seq<Message>): nat {
    if sent == [] then 0 else Closes(sent[..|sent| - 1]) + if sent[|sent| - 1].Close? then 1 else 0
  }

  lemma {:induction false} NoCloses(sent: seq<Message>)
    requires forall k :: 0 <= k < |sent| ==> !sent[k].Close?
    ensures Closes(sent) == 0
  {
    if sent != [] {
      NoCloses(sent[..|sent| - 1]);
    }
  }

  /**
   * When a close message reaches an open server, the session is closed and has sent exactly one close
   * message, and so it stays whatever follows.
   */
  lemma {:induction false} ClosedOnce(session: Int32, before: seq<Step>, i: nat, after: seq<Step>)
    requires Legal(Init(session), before) && Enabled(Run(Init(session), before), ServerRecv(i))
    requires Received(Run(Init(session), before).clientSent[i]) == Some(Close(session))
    requires Legal(Apply(Run(Init(session), before), ServerRecv(i)), after)
    ensures var w := Run(Apply(Run(Init(session), before), ServerRecv(i)), after);
      w.server.closed && Closes(w.server.sent) == 1 && w.server.sent[|w.server.sent| - 1] == Close(session)
  {
    var w0 := Run(Init(session), before);
    var w := Apply(w0, ServerRecv(i));
    NothingNew(w0, Close(session));
    RunKeepsSession(Init(session), before);
    RunKeepsLast(Init(session), before);
    NoCloses(w0.server.sent);
    var sent := w.server.sent;
    assert sent[..|sent| - 1] == w0.server.sent;
    ClosedStays(w, after);
  }

  lemma {:induction false} ClosedStays(w: World, steps: seq<Step>)
    requires w.server.closed && Legal(w, steps)
    ensures Run(w, steps).server == w.server
    decreases |steps|
  {
    if steps != [] {
      ClosedStays(Apply(w, steps[0]), steps[1..]);
    }
  }
}
