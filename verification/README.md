# Protohackers servers: models and proofs

A Dafny model of the hard parts of a repository of small protocol servers, with proofs about every
run, every input and every interleaving. Six components are modelled, each in modules of its own.

| component | modules | main results |
|---|---|---|
| LRCP sessions over UDP (`7-line-reversal`) | `LrcpSession`, `LrcpReceiver`, `LrcpNetwork`, `LrcpAnswers`, `LrcpLateAck`, `LrcpCompletion` | `EndToEnd`, `ServerAnswers`, `StreamEndToEnd`, `StopsIff`, `CanFinish`, `ReceiverSplitsStream`, `ReceiverCrashIff`, `Burst`, `WrongOrderStops` |
| LRCP text codec | `LrcpCodec`, `LrcpGrammar` | `DecodeIff`, `ReceivedIff`, `DataRoundTripIff`, `ControlRoundTrip`, `MarshalSizeBoundsIff` |
| Job centre (`9-job-centre`) | `JobHeap`, `JobQueues`, `JobCentre`, `JobHandler`, `JobProgress`, `RequestFraming` | `ExactlyOnePlace`, `DeletedForever`, `NoLostWakeup`, `BlockedPopIff`, `OnlyWaitersBlock`, `CanRest`, `DisconnectRequeuesOwned`, `Queues.TryPop`, `ReadRequests` |
| Speed daemon (`6-speed-daemon`) | `SpeedCodec`, `SpeedTickets` | `WireFormat`, `ReadIff`, `StreamRoundTrip`, `OneTicketPerDay`, `TicketsAreDeserved`, `SpeedersAreTicketed`, `EscapeIff` |
| Insecure sockets layer (`8-insecure-sockets-layer`) | `Cipher` | `Converse`, `StackRoundTrip`, `PositionsWrap`, `AddsByValue`, `FlipsByBit`, `SpecRoundTrip`, `NoOpTestIsExact` |
| Token rewriter (`5-mob-in-the-middle`) | `BogusCoin` | `ReplaceBogusCoin`, `TokensReplaced`, `SplitSwapJoinIdempotent` |

`Bytes` holds byte strings and the newline split that the LRCP receiver and the request reader share;
`Common` holds the option and integer types, `Arith` a fact about products.

Two styles meet in the project. Code that changes state in place is a class or a looping method, and
each method is proved against a function of the old state. Concurrency is a step system: a state, the
steps that may be taken, and an invariant kept by every step, so that the theorems speak of every legal
sequence of steps. `ProcessPlateIsRun`, `PutIsRun`, `GetIsRun`, `WokenGetIsRun`, `DeleteIsRun`,
`AbortIsRun` and `DisconnectIsRun` tie the objects to the step systems.

Findings where the code falls short of what one might expect of it, each with the condition that decides:

- A data payload survives the text codec exactly when it is `Clean`: it does not start with `/` or `\`,
  does not end with `\`, and has no `\` directly before `\` or `/` (`DataRoundTripIff`).
- `MarshalSize` bounds the bytes written for every message except a connect message with a negative
  session number (`MarshalSizeBoundsIff`).
- What reaches the server is what was sent, or nothing, exactly when the payload is clean, ends in `\`, or
  makes the message longer than a datagram (`ReceivedIff`); other payloads arrive with bytes added. The
  escaping that the server writes is right: a reader that follows it gets every payload
  (`ProperReaderReads`).
- Undistorted packets of a stream can stop the server exactly when a part of the stream that such packets
  can bring to it has a line, or a residual, of more than 10,000 bytes (`ReceiverCrashIff`); a stream that
  fits is safe from them (`FittingStreamIsSafe`). Distorted packets are not so bound: 10,000 slashes fit,
  and sent one by one they stop it (`SlashStreamStops`).
- Accepted acks reach the sender in no fixed order. An ack is late when the sender has already left the
  buffer it belongs to. If all lines fit, a run stops the server exactly when a packet is sent after a
  late ack (`StopsIff`, `StreamEndToEnd`), and every state in which a late ack can be heard is two steps
  from that (`LateAckStops`). `WrongOrderStops` gives such a run for an honest client. Acks heard in order
  are never late (`InOrderIsNeverLate`). As long as none was late the service can still finish
  (`CanFinish`), and the guarantees of `EndToEnd` hold whatever the order.
- A `Pop` that waits never looks at a queue created after it began. Beside another idle client it is safe
  from that exactly when all the queues it named existed (`BlockedPopIff`); otherwise it can be left
  blocked beside a job it asked for (`NewQueueIsMissed`).
- A push breaks the bijection between locators and queued jobs exactly when its JobID is already queued
  (`LinkPush`). JobIDs repeat exactly every 2^32 puts (`IdsRepeat`).
- While a client disconnects, each of its jobs is for a moment both queued and in the table of jobs in
  progress, with the handler lock held; `ExactlyOnePlace` counts such a job as queued.
- `Seek` ignores its offset once it is in range: it always goes to the start, and on a buffer with no chunk
  it indexes out of range (`RequestBuffer.Seek`).
- The speed test of a pair uses the limit of the camera that scans. Two sightings can go without a ticket
  exactly when they are not too fast for the camera of the one inserted last, whatever the limit of the
  other (`EscapeIff`).
- The no-op test of a cipher spec refuses exactly the no-ops among ciphers that only move and flip bits and
  among ciphers that only add (`NoOpTestIsExact`). Mixing the two breaks it: a cipher that is no no-op is
  refused (`NoOpTestIsTooStrict`), though no no-op ever passes (`NoOpsAreCaught`).

## Model

| member | source | states |
|---|---|---|
| `LrcpNetwork.EndToEnd` | 7-line-reversal/lrcp/session.go:60-152 | Over every run, whatever data the client sends and whatever the network loses, repeats and reorders, with the server's own decoder on the way in: acked <= received by the client <= shouldBeSent, the client holds a prefix of the bytes sent, those are the replies to the first lines of the bytes counted, empty lines included, and a client that acknowledges no more than it has is never closed for misbehaving |
| `LrcpNetwork.StreamEndToEnd` | 7-line-reversal/lrcp/session.go:60-152 | For a client that sends undistorted slices of one stream, the bytes counted are a prefix of that stream, and if all lines fit the server has stopped exactly when it sent a packet after a late ack |
| `LrcpNetwork.StepKeeps` | 7-line-reversal/lrcp/session.go:60-152 | Every step of client, network, receiver, handler and sender keeps the invariant, whatever the data and the order of acks |
| `LrcpNetwork.RunKeeps` | 7-line-reversal/lrcp/session.go:60-152 | The same over whole runs |
| `LrcpCompletion.CanFinish` | 7-line-reversal/lrcp/session.go:60-152 | From every reachable open state with no late ack heard, for a stream that fits and can be delivered, some continuation ends with the client holding the replies to all lines |
| `LrcpCompletion.RunMovesOn` | 7-line-reversal/lrcp/session.go:139-142 | In every reachable state in which everything is acked, the sender knows it or the ack that says so is on its way |
| `LrcpAnswers.ServerAnswers` | 7-line-reversal/lrcp/session.go:227-291 | In every reachable state the open server answers a connect by exactly one ack of the bytes counted and changes nothing else, data it survives by exactly one ack of the bytes then counted, a new ack by handing it to the sender, an old one by nothing, a close by closing with one close message |
| `LrcpAnswers.ClosedOnce` | 7-line-reversal/lrcp/session.go:288-290 | After a close message the session is closed and has sent exactly one close message, its last, whatever follows |
| `LrcpNetwork.StopsIff` | 7-line-reversal/lrcp/session.go:114-142 | From every state of a run with lines that fit, the rest of the run stops the server exactly when a packet is sent after a late ack |
| `LrcpNetwork.SinksIff` | 7-line-reversal/lrcp/session.go:140-142 | The sender's position is below its buffer exactly when an ack was heard late before |
| `LrcpNetwork.LateAckStops` | 7-line-reversal/lrcp/session.go:114-142 | Every reachable state in which a late ack can be heard extends by two steps to a stopped server |
| `LrcpNetwork.InOrderIsNeverLate` | 7-line-reversal/lrcp/session.go:280-287 | Runs in which acks are heard as they were accepted have no late ack |
| `LrcpLateAck.WrongOrderStops` | 7-line-reversal/lrcp/session.go:266-287 | For every line of 1100 plain bytes and the empty line after it, sent in two packets, some run with two acks heard in the wrong order stops the server though every line fits |
| `LrcpNetwork.ReverseLine` | 7-line-reversal/main.go:18-44 | The handler writes the reversed line, nothing for an empty one |
| `LrcpNetwork.RepliesConcat` | 7-line-reversal/lrcp/session.go:60-101 | The replies to two lists of lines are the replies to their concatenation |
| `LrcpReceiver.ReceiverSplitsStream` | 7-line-reversal/lrcp/session.go:238-265 | After any slices of one stream, repeated, overlapping or with gaps, the lines and the residual are the newline split of the first lenTotalIncoming bytes, one ack is sent per slice and acked lengths never fall |
| `LrcpReceiver.DataKeepsCut` | 7-line-reversal/lrcp/session.go:238-265 | One data message keeps that, moves the total to the end of the slice or leaves it, and acknowledges it; it stops the server only if a line of the stream is too long |
| `LrcpReceiver.ReceiverCrashIff` | 7-line-reversal/lrcp/session.go:293-343 | Some undistorted packets of a stream, through datagram and decoder, stop the receiver exactly when a part of the stream that such packets can bring to it has a line or residual over 10,000 bytes |
| `LrcpReceiver.FittingStreamIsSafe` | 7-line-reversal/lrcp/session.go:293-343 | No undistorted packets of a stream whose lines fit stop the receiver |
| `LrcpReceiver.PlainCrashIff` | 7-line-reversal/lrcp/session.go:293-343 | For streams without slashes and backslashes the condition is that some 10,001 bytes in a row are free of newlines |
| `LrcpReceiver.FitsIff` | 7-line-reversal/lrcp/session.go:324-326 | A byte string fits the line buffer exactly when no 10,001 bytes in a row are free of newlines |
| `LrcpReceiver.SlashStreamStops` | 7-line-reversal/lrcp/message.go:292-301 | 10,000 slashes fit and no undistorted packets of them stop the receiver, but one packet per slash does |
| `LrcpReceiver.MessageCuts` | 7-line-reversal/lrcp/session.go:227-265 | Whatever message is handled, lines and residual are the newline split of all bytes counted |
| `LrcpSession.Session.ReadNewLineFromMessage` | 7-line-reversal/lrcp/session.go:293-343 | Appends exactly the lines of buffered bytes plus message, keeps the residual, and overflows exactly when one of them is too long |
| `LrcpSession.Session.HandleData` | 7-line-reversal/lrcp/session.go:238-265 | The object follows the receive rule: gap or duplicate is acknowledged and dropped, overlap is trimmed |
| `LrcpSession.Session.HandleAck` | 7-line-reversal/lrcp/session.go:266-287 | Old acks change nothing, acks beyond shouldBeSent close the session with one close message, others are counted and handed on |
| `LrcpSession.Session.HandleIncoming` | 7-line-reversal/lrcp/session.go:227-291 | Every message takes the object to the endpoint the protocol functions give: a connect adds one ack of the bytes counted and nothing else, data it survives one ack of the bytes then counted, a close closes and adds one close message |
| `LrcpSession.Session.CloseSession` | 7-line-reversal/lrcp/session.go:345-351 | The session is closed and one close message dispatched |
| `LrcpSession.FindNewLine` | 7-line-reversal/lrcp/session.go:316-322 | The first newline from a position on, or that there is none |
| `LrcpSession.Burst` | 7-line-reversal/lrcp/session.go:122-137 | One burst ends and partitions the unacknowledged suffix into non-empty contiguous packets at consecutive positions, each accepted by Marshal and within the MTU |
| `LrcpSession.NextChunk` | 7-line-reversal/lrcp/session.go:124-133 | The packet loop ends with a non-empty prefix whose packet fits |
| `LrcpSession.ChunkFits` | 7-line-reversal/lrcp/session.go:129-133 | For every session number, position and payload the cut reaches a non-empty payload within the MTU |
| `LrcpSession.CutFrom` | 7-line-reversal/lrcp/session.go:129-133 | A cut payload is nine tenths, and at most 999 bytes, of one whose packet was still too long |
| `LrcpCodec.DataRoundTripIff` | 7-line-reversal/lrcp/message.go:223-313 | A data message within the MTU is decoded back to itself exactly when its payload is clean |
| `LrcpCodec.ReceivedIff` | 7-line-reversal/lrcp/server.go:114-136 | For every message: received as sent or dropped exactly when undistorted, and as sent exactly when it fits a datagram and its payload is clean |
| `LrcpCodec.OversizeIsDropped` | 7-line-reversal/lrcp/server.go:114-136 | Every message longer than a datagram loses its delimiter and is dropped |
| `LrcpCodec.ProperReaderReads` | 7-line-reversal/lrcp/message.go:235-255 | A reader that takes a backslash and the next byte as that byte gets back every payload written |
| `LrcpCodec.TextForm` | 7-line-reversal/lrcp/message.go:105-261 | The words, slashes, numbers and payload of each kind of message, character by character |
| `LrcpCodec.DecimalForm` | 7-line-reversal/lrcp/message.go:231-234 | Numbers are written in decimal characters with a minus sign where negative |
| `LrcpGrammar.DecodeIff` | 7-line-reversal/lrcp/message.go:29-86 | A datagram, of at most 999 bytes, is taken for a message exactly when it is that message's word, texts of its numbers, its payload text and their slashes, with nothing after them; every other datagram is dropped |
| `LrcpGrammar.NumberIff` | 7-line-reversal/lrcp/message.go:286-291 | The number texts read are an optional sign, any zeros and the decimal form, in the 32-bit range |
| `LrcpCodec.ControlRoundTrip` | 7-line-reversal/lrcp/message.go:105-221 | Connect, ack and close messages always fit and are decoded back to themselves for every int32 |
| `LrcpCodec.MarshalSizeBoundsIff` | 7-line-reversal/lrcp/message.go:128-130 | MarshalSize bounds the bytes written except for a connect message with a negative session |
| `LrcpCodec.EncodedLength` | 7-line-reversal/lrcp/message.go:157-166 | The exact difference between MarshalSize and the bytes written |
| `LrcpCodec.AcceptedFits` | 7-line-reversal/lrcp/message.go:142-151 | What Marshal accepts is never longer than the MTU |
| `LrcpCodec.IntRoundTrip` | 7-line-reversal/lrcp/message.go:264-313 | Decimal text of every int32 parses back to it |
| `LrcpCodec.UnescapeEscape` | 7-line-reversal/lrcp/message.go:223-313 | Unescaping an escaped payload adds exactly the bytes it fails to drop, and is the payload when there are none |
| `LrcpCodec.UnmarshalMessage` | 7-line-reversal/lrcp/message.go:29-86 | The parsing loop computes the decoding function on every datagram, malformed ones included |
| `LrcpCodec.UnpackFromReader` | 7-line-reversal/lrcp/message.go:264-313 | The field loop computes the field parser on the first 999 bytes, with its failures |
| `LrcpCodec.UnescapeField` | 7-line-reversal/lrcp/message.go:292-301 | The byte loop drops exactly the backslashes that neither open the field nor follow another backslash |
| `LrcpCodec.NextSlash` | 7-line-reversal/lrcp/message.go:315-325 | The first unescaped slash, and that there is none before it |
| `LrcpCodec.PackToWriter` | 7-line-reversal/lrcp/message.go:223-262 | The writing loop produces every field in order, each with its delimiter |
| `LrcpCodec.WriteEscaped` | 7-line-reversal/lrcp/message.go:235-250 | Every slash and backslash gets a backslash before it |
| `LrcpCodec.DataMarshalSize` | 7-line-reversal/lrcp/message.go:157-166 | The counting loop computes the size function |
| `LrcpCodec.Marshal` | 7-line-reversal/lrcp/message.go:142-151 | Refuses exactly the messages whose size exceeds the MTU, else writes the encoding |
| `LrcpCodec.Digits` | 7-line-reversal/util/number.go:3-13 | The number of decimal digits of the absolute value, 1 to 10, for every int32 |
| `JobHeap.RootIsMax` | 9-job-centre/job_queue.go:156-164 | In a heap the root has the highest priority |
| `JobHeap.JobQueue.Swap` | 9-job-centre/job_queue.go:166-170 | Exchanges two slots and keeps every index equal to its slot |
| `JobHeap.JobQueue.PushItem` | 9-job-centre/job_queue.go:172-177 | Appends with the right index |
| `JobHeap.JobQueue.PopItem` | 9-job-centre/job_queue.go:179-187 | Drops the last slot, whose job is told it is out |
| `JobHeap.JobQueue.Up` | 9-job-centre/job_queue.go:67-67 | Sift-up restores the heap, keeps the jobs and their indices, and leaves slots past the bound alone |
| `JobHeap.JobQueue.Down` | 9-job-centre/job_queue.go:125-125 | Sift-down restores the heap if it moves, and otherwise leaves only the way up open |
| `JobHeap.JobQueue.HeapPush` | 9-job-centre/job_queue.go:67-67 | One job more, still a heap with exact indices |
| `JobHeap.JobQueue.HeapPop` | 9-job-centre/job_queue.go:124-127 | Takes exactly the root, which outranks every job of the queue |
| `JobHeap.JobQueue.HeapRemove` | 9-job-centre/job_queue.go:85-86 | Takes exactly the job of the slot, still a heap with exact indices |
| `JobHeap.UpStep` | 9-job-centre/job_queue.go:162-170 | One exchange with the parent moves the only violation up |
| `JobHeap.DownStep` | 9-job-centre/job_queue.go:162-170 | One exchange with the higher child moves the only violation down |
| `JobQueues.LinkPush` | 9-job-centre/job_queue.go:67-68 | Adding a job keeps locators and queues in bijection exactly when its JobID was not queued |
| `JobQueues.LinkRemove` | 9-job-centre/job_queue.go:85-87 | Removing a job keeps the bijection and removes exactly that JobID from the map |
| `JobQueues.Queues.Push` | 9-job-centre/job_queue.go:54-74 | All queues stay heaps, the map of jobs gains exactly the job, every notifier is closed once and none is left |
| `JobQueues.Queues.Remove` | 9-job-centre/job_queue.go:76-90 | Reports whether the JobID was queued and removes exactly it |
| `JobQueues.Queues.Capture` | 9-job-centre/job_queue.go:96-103 | The named queues that exist at entry |
| `JobQueues.Queues.Highest` | 9-job-centre/job_queue.go:110-123 | A queue whose root is highest above 0, or none |
| `JobQueues.Queues.TryPop` | 9-job-centre/job_queue.go:105-132 | Takes a job of maximal priority over all jobs in the captured queues and removes only it; finds nothing exactly when none has a priority above 0 |
| `JobQueues.Queues.Subscribe` | 9-job-centre/job_queue.go:134-135 | A new open notifier is registered |
| `JobQueues.Queues.NotifyAll` | 9-job-centre/job_queue.go:70-73 | Every registered notifier is closed, none of them twice |
| `JobCentre.ExactlyOnePlace` | 9-job-centre/main.go:60-208 | In every reachable state each JobID handed out is in exactly one of being put, queued, in hand, being aborted, in progress, deleted, and no other JobID is anywhere |
| `JobCentre.DeletedForever` | 9-job-centre/main.go:104-133 | A deleted job is never again anywhere |
| `JobCentre.ContentsKept` | 9-job-centre/main.go:60-208 | Wherever a job turns up later, it is the job that was put |
| `JobCentre.StepKeepsJobs` | 9-job-centre/main.go:60-208 | Every critical section keeps the invariant of places, owners and locks |
| `JobCentre.StepKeepsNotify` | 9-job-centre/job_queue.go:54-148 | Every critical section keeps the invariant of notifiers and waiters |
| `JobCentre.IdsRepeat` | 9-job-centre/main.go:61-61 | Two puts get the same JobID exactly when their numbers differ by a multiple of 2^32 |
| `JobCentre.RecordFindsClient` | 9-job-centre/main.go:92-96 | When a popped job is recorded the client's set exists |
| `JobCentre.OnlyOwnerAborts` | 9-job-centre/main.go:135-161 | An abort takes effect exactly for the client the job is in progress for, and otherwise changes nothing |
| `JobCentre.MutualInverse` | 9-job-centre/main.go:92-99 | In every reachable state with the handler lock free, a job is in a client's set exactly when it is in progress for that client |
| `JobCentre.DisconnectRequeuesOwned` | 9-job-centre/main.go:182-208 | Whatever others do meanwhile, a disconnect pushes back exactly the jobs in progress for the client when it began, each from the table into its queue as it was put, and leaves none in progress for it |
| `JobCentre.NoLostWakeup` | 9-job-centre/job_queue.go:92-148 | A Pop blocked on an open notifier is registered and has no job above priority 0 in a captured queue; no notifier is closed twice |
| `JobCentre.BlockedPopSees` | 9-job-centre/job_queue.go:96-145 | While a Pop stays blocked it looks at exactly the named queues that existed at entry, and on an open notifier there is nothing to take in those |
| `JobCentre.BlockedPopIff` | 9-job-centre/job_queue.go:96-145 | Beside another idle client, a waiting Pop is never blocked on an open notifier beside a job it asked for exactly when all the queues it named existed at entry |
| `JobCentre.NewQueueIsMissed` | 9-job-centre/job_queue.go:96-103 | From every reachable state with a Pop blocked on an open notifier, a put of positive priority into a named queue it did not capture leaves it blocked again beside that job |
| `JobCentre.OnlyWaitersBlock` | 9-job-centre/job_queue.go:130-145 | Over every run a client is blocked in Pop only if it sent a get with wait for these queues and has since only been woken for nothing |
| `JobProgress.CanRest` | 9-job-centre/main.go:60-208 | From every reachable state some continuation without puts frees the handler lock and leaves no client busy |
| `JobHandler.Handler.PutJob` | 9-job-centre/main.go:60-74 | The next JobID, and the job under it in its queue if it is free |
| `JobHandler.Handler.GetJob` | 9-job-centre/main.go:76-102 | The best job of the existing named queues moves from the queues to this client; nothing changes when there is none |
| `JobHandler.Handler.DeleteJob` | 9-job-centre/main.go:104-133 | The job is gone from queues, table and its owner's set; found exactly if it was in one of them |
| `JobHandler.Handler.AbortJob` | 9-job-centre/main.go:135-161 | Exactly the owner moves the job back to its queue; otherwise nothing changes |
| `JobHandler.Handler.OnClientConnected` | 9-job-centre/main.go:163-180 | The client has a job set, an existing one untouched |
| `JobHandler.Handler.OnClientDisconnected` | 9-job-centre/main.go:182-208 | All jobs in progress for the client are queued again and no others, and the client is forgotten |
| `JobHandler.InverseRecord` | 9-job-centre/main.go:92-99 | Recording a job keeps job sets and table mutual inverses |
| `JobHandler.InverseStrike` | 9-job-centre/main.go:118-126 | Striking a job from table and owner's set keeps them mutual inverses |
| `JobHandler.PutIsRun` | 9-job-centre/main.go:60-74 | The steps of an uninterrupted put leave what the object's method leaves |
| `JobHandler.GetIsRun` | 9-job-centre/main.go:84-99 | The same for pop and record |
| `JobHandler.GetWithoutWait` | 9-job-centre/job_queue.go:130-132 | For an idle client a get without wait that finds nothing is possible exactly when no existing named queue holds a job of positive priority, and leaves the state as it was |
| `JobHandler.GetThatWaits` | 9-job-centre/job_queue.go:134-145 | With wait it is possible exactly then too, and only registers a new notifier and blocks the client on it |
| `JobHandler.GetTakesBest` | 9-job-centre/job_queue.go:110-128 | A get takes a job exactly when it is in an existing named queue, of positive priority and not outranked there; if there is any such job, it takes one |
| `JobHandler.WokenGetIsRun` | 9-job-centre/job_queue.go:105-145 | A Pop that waited and is woken to a job moves it to this client as well |
| `JobHandler.DeleteIsRun` | 9-job-centre/main.go:104-133 | The same for delete |
| `JobHandler.AbortIsRun` | 9-job-centre/main.go:135-161 | The same for an abort by the owner |
| `JobHandler.DisconnectIsRun` | 9-job-centre/main.go:182-208 | The steps of an uninterrupted disconnect leave what the object's method leaves |
| `RequestFraming.ReadRequests` | 9-job-centre/proto/server.go:170-187 | Repeated calls yield exactly the newline-delimited lines of the input, however it is cut and for every buffer size |
| `RequestFraming.NextRequest` | 9-job-centre/proto/server.go:403-481 | Request, newline, rest and unread input are what remained; it fails exactly when no newline remains |
| `RequestFraming.RequestBuffer.Append` | 9-job-centre/proto/server.go:453-467 | Bytes are added to the end of the flattened buffer, all chunks but the last full |
| `RequestFraming.RequestBuffer.Len` | 9-job-centre/proto/server.go:489-495 | The length of the flattened buffer |
| `RequestFraming.RequestBuffer.Seek` | 9-job-centre/proto/server.go:497-523 | Goes to the start when asked from the start with an offset in range, with all its ways to refuse |
| `RequestFraming.RequestBuffer.Read` | 9-job-centre/proto/server.go:525-547 | Copies the flattened bytes from pos on, as many as fit, and touches nothing else of the target |
| `RequestFraming.SlotOf` | 9-job-centre/proto/server.go:541-545 | Division and remainder by the chunk size find the chunk and offset of every position |
| `RequestFraming.DecodeTwice` | 9-job-centre/proto/server.go:497-547 | Reading, seeking to 0 and reading again gives the same bytes twice |
| `SpeedCodec.RoundTrip` | 6-speed-daemon/message.go:16-51 | Every message that marshals, followed by any bytes, is read back and leaves exactly those bytes |
| `SpeedCodec.WireFormat` | 6-speed-daemon/message.go:64-269 | The type byte and the place of every field of each message, numbers by the values of their bytes, high byte first |
| `SpeedCodec.ReadIff` | 6-speed-daemon/message.go:16-51 | A message is read exactly from the inputs that start with its bytes, and what follows is left |
| `SpeedCodec.UnknownIff` | 6-speed-daemon/message.go:24-44 | Exactly the type bytes other than the seven give an unknown message, and one byte is taken |
| `SpeedCodec.StreamRoundTrip` | 6-speed-daemon/message.go:16-51 | A concatenated stream of messages parses back to the list |
| `SpeedCodec.UnmarshalMore` | 6-speed-daemon/message.go:271-322 | Bytes after a complete message never change what is read |
| `SpeedCodec.TruncatedFails` | 6-speed-daemon/message.go:271-322 | Every proper prefix of a message fails to parse |
| `SpeedCodec.ConstructPacketData` | 6-speed-daemon/message.go:221-269 | Writes all fields, each at its place with its bytes by value, or stops at the first string or array over 255 with what precedes it written |
| `SpeedCodec.WriteArray` | 6-speed-daemon/message.go:248-264 | The count byte and the elements, two bytes each by value, high byte first |
| `SpeedCodec.Marshal` | 6-speed-daemon/message.go:64-219 | Succeeds exactly when no string or list is longer than 255, and writes the type byte and every field at its place, by value |
| `SpeedCodec.ExtractPacketData` | 6-speed-daemon/message.go:271-322 | The reading loop computes the field decoder, with its failures; the fields it reads are those that the bytes taken hold, by value |
| `SpeedTickets.SpeedersAreTicketed` | 6-speed-daemon/main.go:111-174 | Once all scans are done, every pair of sightings of a plate on a road that is, in miles and seconds, at least half a mile per hour over the limit of the camera of one of them shares a day of 86,400 seconds with a ticket sent for that plate, if that camera's scan began after the other sighting was inserted; that of the later one always did |
| `SpeedTickets.SameLimitIsEnforced` | 6-speed-daemon/main.go:111-174 | Where both cameras have the same limit, every pair over it shares a day with a ticket |
| `SpeedTickets.EscapeIff` | 6-speed-daemon/main.go:127-156 | Two sightings alone on a road can end without a ticket exactly when they are not too fast for the camera of the one inserted last |
| `SpeedTickets.OneTicketPerDay` | 6-speed-daemon/main.go:179-207 | No day of 86,400 seconds is touched by the times of two tickets of one plate |
| `SpeedTickets.TicketsAreDeserved` | 6-speed-daemon/main.go:129-168 | Every ticket joins two recorded sightings of its plate and road in order of time, in miles and seconds over the limit of one of their cameras, with speed * seconds <= 360000 * miles < (speed + 1) * seconds for the speed printed |
| `SpeedTickets.TooFastIff` | 6-speed-daemon/main.go:147-156 | The test on whole part and fraction is 7200 * miles >= (2 * limit + 1) * seconds: at least half a mile per hour over the limit |
| `SpeedTickets.InRangeIff` | 6-speed-daemon/main.go:148-149 | The conversion to uint16 is defined exactly below 65,536 miles per hour, in miles and seconds |
| `SpeedTickets.SpeedOkIff` | 6-speed-daemon/main.go:166-166 | The printed speed is the whole hundredths of a mile per hour, in miles and seconds |
| `SpeedTickets.PairDaysIff` | 6-speed-daemon/main.go:190-191 | The days of a pair are those that the time between its positions touches, of 86,400 seconds each |
| `SpeedTickets.SendKeepsDays` | 6-speed-daemon/main.go:179-207 | Sending keeps the days taken equal to the days of the tickets sent, and those disjoint |
| `SpeedTickets.TicketServer.Send` | 6-speed-daemon/main.go:179-207 | Sends exactly when no day of the ticket is taken, and then takes them all |
| `SpeedTickets.TicketServer.Dispatch` | 6-speed-daemon/main.go:209-220 | Every road's channel holds exactly the tickets sent for that road, in order |
| `SpeedTickets.TicketServer.ProcessPlate` | 6-speed-daemon/main.go:98-177 | The object ends as the scan of all recorded positions demands |
| `SpeedTickets.ProcessPlateIsRun` | 6-speed-daemon/main.go:98-177 | An uninterrupted report is a run of the step system |
| `Cipher.Converse` | 8-insecure-sockets-layer/isl/cipher.go:28-44 | For every operation list and any interleaving of writes and reads of any sizes, what is read is exactly the next part of what was written |
| `Cipher.StackRoundTrip` | 8-insecure-sockets-layer/isl/cipher.go:28-44 | Per byte and position, the reader stack inverts the writer stack |
| `Cipher.StreamRoundTrip` | 8-insecure-sockets-layer/isl/cipher.go:71-223 | The same for every byte stream from every position |
| `Cipher.EncodedSplits` | 8-insecure-sockets-layer/isl/cipher.go:71-223 | Encoding in pieces is encoding at once; only the number of bytes before matters |
| `Cipher.PositionsWrap` | 8-insecure-sockets-layer/isl/cipher.go:133-223 | All ciphers write alike, and read alike, from two positions exactly when these differ by a multiple of 256 |
| `Cipher.PositionsOnTheWire` | 8-insecure-sockets-layer/isl/cipher.go:133-223 | Over zero bytes XorPos and AddPos write their stream position modulo 256 |
| `Cipher.AddsByValue` | 8-insecure-sockets-layer/isl/cipher.go:158-223 | Add and AddPos add the parameter or the stream position to the value of the byte, modulo 256 |
| `Cipher.FlipsByBit` | 8-insecure-sockets-layer/isl/cipher.go:67-156 | Bit by bit, ReverseBits mirrors the byte, Xor flips the bits of the parameter and XorPos those of the stream position modulo 256 |
| `Cipher.EncodedInTurn` | 8-insecure-sockets-layer/isl/cipher.go:28-44 | A list of operations writes like its first part followed by the rest, and reads in the opposite order |
| `Cipher.Writer.Write` | 8-insecure-sockets-layer/isl/cipher.go:37-44 | The layers in order turn the buffer, in place, into the encoding at the current position |
| `Cipher.Reader.Read` | 8-insecure-sockets-layer/isl/cipher.go:28-35 | The layers in reverse turn the received bytes, in place, into their decoding |
| `Cipher.SpecRoundTrip` | 8-insecure-sockets-layer/isl/cipher.go:227-276 | The bytes of every operation list parse back to it and leave what follows |
| `Cipher.SpecOnTheWire` | 8-insecure-sockets-layer/isl/cipher.go:242-273 | The byte that names each operation, where a parameter follows, and the closing zero |
| `Cipher.ReadOps` | 8-insecure-sockets-layer/isl/cipher.go:233-276 | The parsing loop computes the parser, with its failures |
| `Cipher.ReadCipherSpec` | 8-insecure-sockets-layer/isl/cipher.go:227-291 | Malformed specs and specs that look like no-ops are refused, and no accepted spec is a no-op |
| `Cipher.NoOpsAreCaught` | 8-insecure-sockets-layer/isl/cipher.go:278-288 | Every operation list that changes no stream is refused |
| `Cipher.NoOpTestIsExact` | 8-insecure-sockets-layer/isl/cipher.go:278-288 | For every operation list without additions, and every list of additions only, the test refuses it exactly when it is a no-op |
| `Cipher.NoOpTestIsTooStrict` | 8-insecure-sockets-layer/isl/cipher.go:278-288 | A list that mixes the two is refused though it changes streams |
| `BogusCoin.ReplaceBogusCoin` | 5-mob-in-the-middle/main.go:126-174 | For every message and replacement the nested loop is split on spaces, replace each coin, join |
| `BogusCoin.TokensReplaced` | 5-mob-in-the-middle/main.go:126-174 | With a replacement free of spaces the result has the same tokens, but those of 26 to 35 letters and digits with a 7 first are replaced |
| `BogusCoin.ScanToken` | 5-mob-in-the-middle/main.go:140-158 | The inner loop reads the alphanumeric start of a token and tells whether it is the whole token |
| `BogusCoin.RewriteIsSplitSwapJoin` | 5-mob-in-the-middle/main.go:126-174 | Rewriting token by token is split, replace, join |
| `BogusCoin.SplitJoin` | 5-mob-in-the-middle/main.go:126-174 | Splitting loses nothing: joining the tokens, none of which holds a space, gives the message back |
| `BogusCoin.SplitSwapJoinIdempotent` | 5-mob-in-the-middle/main.go:126-174 | With a replacement free of spaces, twice is once |
| `Bytes.LinesUnique` | 7-line-reversal/lrcp/session.go:293-343 | The newline split is the only way to write a byte string as newline-free lines and a newline-free residual |
| `Bytes.LinesResume` | 7-line-reversal/lrcp/session.go:293-343 | Splitting can stop anywhere and resume from the residual |

## Left out

- LRCP data messages are handled one at a time: `s.lock` is released (session.go:254) before `lockIncomingData` is taken (session.go:294), and two messages racing through that gap are not modelled.
- Streams of 2^31 bytes and more: counters wrap as int32 in the functions, but the theorems are for shorter streams.
- LrcpNetwork.StreamEndToEnd: clients send slices that the server's decoder does not distort (`Undistorted`), because a distorted slice is no slice of the stream; what holds for any data is `EndToEnd`.
- Clients that acknowledge more than they have: the server closes their session, and nothing else is promised to them.
- On a session timeout the sender goroutine waits for itself (session.go:145-147, 177-178), so no close message is sent; the model ends the session without one.
- LrcpSession.Session.CloseSession: records that the session is closed and the message sent; removal from the session table, cancellation and the wait for the goroutines are not part of this model.
- Timers, retransmission delays and liveness: a timeout is a step that may happen at any time, and `CanFinish` and `CanRest` say what is still possible, not what must happen.
- Sockets, listeners, contexts, shutdown and logging; cancellation is a step.
- Buffer pools: a pooled buffer is a new one. Aliasing of a pooled buffer after its return is not captured.
- Channel capacities: channels are unbounded sequences.
- Session creation and lookup by number (session.go:32-55, 161-200): one session is modelled.
- JSON, request validation and response writing of the job centre; client IDs are opaque values and one client has one request at a time.
- JobHandler.Handler.GetJob: the object answers at once; waiting needs other clients, so it is in the step system (`Get`, `Wake`, `WokenGetIsRun`).
- 2^32 or more puts: `ExactlyOnePlace` and its relatives are for fewer, since JobIDs then repeat (`IdsRepeat`).
- `container/heap` is not part of the repository; `Up`, `Down`, `HeapPush`, `HeapPop` and `HeapRemove` are its documented loops over the repository's own methods, and `heap.Init` of an empty queue is nothing.
- Notifier channels are numbers, open until they are in the set of closed ones.
- JobQueues.Queues.Push: promises the map of jobs only for a JobID that is not queued, because otherwise the locator of the earlier job is lost.
- Floating point in the speed test: speeds are exact rationals, and where the conversion to uint16 is out of range or the time difference is 0 the scan may go either way.
- SpeedTickets.SpeedersAreTicketed: speaks of pairs whose speed is in range of the conversion, because out of range the outcome is not defined, and of the camera whose scan met the other sighting, because the other may scan too early (`EscapeIff`).
- SpeedTickets.TicketServer.ProcessPlate: the order of the positions is a parameter, any permutation, because the comparator at main.go:120-124 is no total order.
- Heartbeats, roles and dispatcher connections of the speed daemon.
- Cipher.Writer.Write: the underlying writer takes the whole buffer; one that takes part of it or fails is not modelled.
- The toy orders of `8-insecure-sockets-layer/main.go` and the directories `0-smoke-test` to `4-unusual-database-program`: echo, library primality, price averages, chat broadcast and a key-value map keep no invariant across operations beyond the map or list they hold.
