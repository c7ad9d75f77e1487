/**
 * The job centre as a step system: many clients, each with one request at a time, over the queue lock
 * and the handler lock.  Every critical section is one step, so a job popped but not yet recorded,
 * a job aborted but not yet pushed back, and a disconnect half way through its jobs are all visible.
 */
module JobCentre {
  import opened Common
  import opened JobHeap
  import opened JobQueues

  type Client = string

  datatype JobClient = JobClient(job: Job, client: Client)

  /** Where a client's goroutine stands. */
  datatype Phase =
    | Idle
    | Putting(job: Job)                                             // JobID taken, push to come
    | Popping(names: set<string>, captured: set<string>, chan: nat) // blocked in Pop
    | Holding(job: Job)                                             // popped, not yet recorded
    | Deleting(id: UInt32)                                          // handler lock held, queue done
    | Aborting(job: Job)                                            // handler lock held, push to come
    | Leaving(owned: set<UInt32>, visited: set<UInt32>, doomed: Option<UInt32>)
                                                                    // handler lock held, requeueing

  /** Where a job is: history kept beside the program's own state. */
  datatype Place = Carried(client: Client) | Queued | InProgress(client: Client) | Deleted

  datatype State = State(
    puts: nat,                                // JobIDs handed out
    queued: map<UInt32, Job>,                 // the jobs of all queues
    names: set<string>,                       // the queues that exist
    notifiers: seq<nat>,
    closed: seq<nat>,                         // channels closed, in order
    made: nat,                                // channels made
    lock: Option<Client>,                     // the handler lock
    phases: map<Client, Phase>,               // connected clients
    clientJob: map<Client, set<UInt32>>,
    inProgress: map<UInt32, JobClient>,
    place: map<UInt32, Place>,                // history
    put: map<UInt32, Job>)                    // history: each job as it was put

  datatype Step =
    | Connect(c: Client)
    | PutAlloc(c: Client, queue: string, data: string, priority: UInt32)
    | PutPush(c: Client)
    | Get(c: Client, names: set<string>, wait: bool, pick: Option<UInt32>)
    | Wake(c: Client, pick: Option<UInt32>)
    | Cancel(c: Client)
    | Record(c: Client)
    | DeleteBegin(c: Client, id: UInt32)
    | DeleteEnd(c: Client)
    | AbortBegin(c: Client, id: UInt32)
    | AbortEnd(c: Client)
    | LeaveBegin(c: Client)
    | LeavePush(c: Client, id: UInt32)
    | LeaveForget(c: Client)
    | LeaveEnd(c: Client)

  const INIT := State(0, map[], {}, [], [], 0, None, map[], map[], map[], map[], map[])

  /** The JobID counter is 32 bits wide; the first JobID is 1. */
  function NextId(puts: nat): UInt32 {
    (puts + 1) % 0x1_0000_0000
  }

  // ---------- the queue lock ----------

  function Push(s: State, j: Job): State {
    s.(queued := s.queued[j.id := j], names := s.names + {j.queue},
       closed := s.closed + s.notifiers, notifiers := [], place := s.place[j.id := Queued])
  }

  /** One scan of Pop: take the best captured job, or block on a new notifier, or give up. */
  ghost predicate CanScan(s: State, captured: set<string>, pick: Option<UInt32>) {
    match pick
    case Some(id) => IsBest(s.queued, captured, id)
    case None => NoneOffered(s.queued, captured)
  }

  function Scan(s: State, c: Client, names: set<string>, captured: set<string>, wait: bool, pick: Option<UInt32>): State
    requires pick.Some? ==> pick.value in s.queued
  {
    match pick
    case Some(id) =>
      s.(queued := s.queued - {id}, phases := s.phases[c := Holding(s.queued[id])], place := s.place[id := Carried(c)])
    case None =>
      if wait then
        s.(notifiers := s.notifiers + [s.made], made := s.made + 1,
           phases := s.phases[c := Popping(names, captured, s.made)])
      else s.(phases := s.phases[c := Idle])
  }

  // ---------- steps ----------

  predicate At(s: State, c: Client, p: Phase) {
    c in s.phases && s.phases[c] == p
  }

  ghost predicate Enabled(s: State, step: Step) {
    match step
    case Connect(c) => c !in s.phases && s.lock.None?
    case PutAlloc(c, _, _, _) => At(s, c, Idle)
    case PutPush(c) => c in s.phases && s.phases[c].Putting?
    case Get(c, names, _, pick) => At(s, c, Idle) && CanScan(s, names * s.names, pick)
    case Wake(c, pick) =>
      c in s.phases && s.phases[c].Popping? && s.phases[c].chan in s.closed && CanScan(s, s.phases[c].captured, pick)
    case Cancel(c) => c in s.phases && s.phases[c].Popping?
    case Record(c) => c in s.phases && s.phases[c].Holding? && s.lock.None?
    case DeleteBegin(c, _) => At(s, c, Idle) && s.lock.None?
    case DeleteEnd(c) => c in s.phases && s.phases[c].Deleting?
    case AbortBegin(c, _) => At(s, c, Idle) && s.lock.None?
    case AbortEnd(c) => c in s.phases && s.phases[c].Aborting?
    case LeaveBegin(c) => At(s, c, Idle) && s.lock.None?
    case LeavePush(c, id) =>
      c in s.phases && s.phases[c].Leaving? && s.phases[c].doomed.None? && id in s.phases[c].owned - s.phases[c].visited
    case LeaveForget(c) => c in s.phases && s.phases[c].Leaving? && s.phases[c].doomed.Some?
    case LeaveEnd(c) =>
      c in s.phases && s.phases[c].Leaving? && s.phases[c].doomed.None? && s.phases[c].owned <= s.phases[c].visited
  }

  function Jobs(clientJob: map<Client, set<UInt32>>, c: Client): set<UInt32> {
    if c in clientJob then clientJob[c] else {}
  }

  function DoConnect(s: State, c: Client): State {
    s.(phases := s.phases[c := Idle], clientJob := if c in s.clientJob then s.clientJob else s.clientJob[c := {}])
  }

  function DoPutAlloc(s: State, c: Client, queue: string, data: string, priority: UInt32): State {
    var j := Job(queue, NextId(s.puts), data, priority);
    s.(puts := s.puts + 1, phases := s.phases[c := Putting(j)],
       place := s.place[j.id := Carried(c)], put := s.put[j.id := j])
  }

  function DoRecord(s: State, c: Client, j: Job): State {
    s.(clientJob := s.clientJob[c := Jobs(s.clientJob, c) + {j.id}],
       inProgress := s.inProgress[j.id := JobClient(j, c)],
       phases := s.phases[c := Idle], place := s.place[j.id := InProgress(c)])
  }

  function DoDeleteBegin(s: State, c: Client, id: UInt32): State {
    s.(lock := Some(c), phases := s.phases[c := Deleting(id)], queued := s.queued - {id},
       place := if id in s.queued then s.place[id := Deleted] else s.place)
  }

  function DoDeleteEnd(s: State, c: Client, id: UInt32): State {
    if id in s.inProgress then
      var owner := s.inProgress[id].client;
      s.(lock := None, phases := s.phases[c := Idle],
         clientJob := if owner in s.clientJob then s.clientJob[owner := s.clientJob[owner] - {id}] else s.clientJob,
         inProgress := s.inProgress - {id}, place := s.place[id := Deleted])
    else s.(lock := None, phases := s.phases[c := Idle])
  }

  /** Refused when the job is not in progress, or not in this client's set. */
  function DoAbortBegin(s: State, c: Client, id: UInt32): State {
    if id !in s.inProgress || id !in Jobs(s.clientJob, c) then s
    else
      s.(lock := Some(c), phases := s.phases[c := Aborting(s.inProgress[id].job)],
         clientJob := s.clientJob[c := Jobs(s.clientJob, c) - {id}],
         inProgress := s.inProgress - {id}, place := s.place[id := Carried(c)])
  }

  function DoLeavePush(s: State, c: Client, id: UInt32): State
    requires c in s.phases && s.phases[c].Leaving?
  {
    var Leaving(owned, visited, _) := s.phases[c];
    if id in s.inProgress then
      Push(s, s.inProgress[id].job).(phases := s.phases[c := Leaving(owned, visited + {id}, Some(id))])
    else s.(phases := s.phases[c := Leaving(owned, visited + {id}, None)])
  }

  ghost function Apply(s: State, step: Step): State
    requires Enabled(s, step)
  {
    match step
    case Connect(c) => DoConnect(s, c)
    case PutAlloc(c, queue, data, priority) => DoPutAlloc(s, c, queue, data, priority)
    case PutPush(c) => Push(s, s.phases[c].job).(phases := s.phases[c := Idle])
    case Get(c, names, wait, pick) => Scan(s, c, names, names * s.names, wait, pick)
    case Wake(c, pick) => Scan(s, c, s.phases[c].names, s.phases[c].captured, true, pick)
    case Cancel(c) => s.(phases := s.phases[c := Idle])
    case Record(c) => DoRecord(s, c, s.phases[c].job)
    case DeleteBegin(c, id) => DoDeleteBegin(s, c, id)
    case DeleteEnd(c) => DoDeleteEnd(s, c, s.phases[c].id)
    case AbortBegin(c, id) => DoAbortBegin(s, c, id)
    case AbortEnd(c) => Push(s, s.phases[c].job).(phases := s.phases[c := Idle], lock := None)
    case LeaveBegin(c) => s.(lock := Some(c), phases := s.phases[c := Leaving(Jobs(s.clientJob, c), {}, None)])
    case LeavePush(c, id) => DoLeavePush(s, c, id)
    case LeaveForget(c) =>
      var Leaving(owned, visited, doomed) := s.phases[c];
      s.(inProgress := s.inProgress - {doomed.value}, phases := s.phases[c := Leaving(owned, visited, None)])
    case LeaveEnd(c) => s.(lock := None, phases := s.phases - {c}, clientJob := s.clientJob - {c})
  }

  // ---------- the invariant of the jobs ----------

  function Cargo(p: Phase): Option<Job> {
    match p
    case Putting(j) => Some(j)
    case Holding(j) => Some(j)
    case Aborting(j) => Some(j)
    case _ => None
  }

  predicate NeedsLock(p: Phase) {
    p.Deleting? || p.Aborting? || p.Leaving?
  }

  /** A disconnecting client has pushed this job back but not yet struck it from inProgress. */
  predicate Doomed(s: State, id: UInt32) {
    && s.lock.Some? && s.lock.value in s.phases
    && s.phases[s.lock.value].Leaving? && s.phases[s.lock.value].doomed == Some(id)
  }

  /** The jobs a client still owns: its set, less those its disconnect has struck out. */
  predicate Owns(s: State, c: Client, id: UInt32)
    requires c in s.phases && c in s.clientJob
  {
    match s.phases[c]
    case Leaving(owned, visited, doomed) => (id in owned && id !in visited) || doomed == Some(id)
    case _ => id in s.clientJob[c]
  }

  /** Everything the state says about one JobID agrees with where the job is. */
  predicate IdOk(s: State, id: UInt32) {
    && (id in s.place <==> 1 <= id <= s.puts)
    && (id in s.put <==> id in s.place)
    && (id in s.put ==> s.put[id].id == id)
    && (id in s.queued <==> id in s.place && s.place[id] == Queued)
    && (id in s.queued ==> s.queued[id] == s.put[id])
    && (id in s.place && s.place[id].Carried? ==>
          s.place[id].client in s.phases && Cargo(s.phases[s.place[id].client]) == Some(s.put[id]))
    && (id in s.place && s.place[id].InProgress? ==>
          id in s.inProgress && s.inProgress[id].client == s.place[id].client)
    && (id in s.inProgress ==>
          && id in s.place && s.inProgress[id].job == s.put[id] && s.inProgress[id].client in s.phases
          && (Doomed(s, id) <==> s.place[id] != InProgress(s.inProgress[id].client)))
  }

  /** What a client carries is its own, it has the lock exactly when it needs it, and it has a job set. */
  predicate ClientOk(s: State, c: Client) {
    && (c in s.phases <==> c in s.clientJob)
    && (c in s.phases ==> (NeedsLock(s.phases[c]) <==> s.lock == Some(c)))
    && (c in s.phases && Cargo(s.phases[c]).Some? ==>
          var j := Cargo(s.phases[c]).value;
          j.id in s.place && s.place[j.id] == Carried(c) && j.id in s.put && s.put[j.id] == j)
    && (c in s.phases && s.phases[c].Leaving? ==>
          && s.phases[c].visited <= s.phases[c].owned
          && (s.phases[c].doomed.Some? ==> s.phases[c].doomed.value in s.phases[c].visited))
  }

  /** clientJob and inProgress are mutual inverses. */
  predicate OwnerOk(s: State, c: Client, id: UInt32) {
    c in s.phases && c in s.clientJob ==>
      (Owns(s, c, id) <==> id in s.inProgress && s.inProgress[id].client == c)
  }

  ghost predicate JobsInv(s: State) {
    && s.puts < 0x1_0000_0000
    && (s.lock.Some? ==> s.lock.value in s.phases)
    && (forall id :: IdOk(s, id))
    && (forall c :: ClientOk(s, c))
    && (forall c, id :: OwnerOk(s, c, id))
  }

  predicate CargoIdOk(s: State, c: Client) {
    c in s.phases && Cargo(s.phases[c]).Some? ==> IdOk(s, Cargo(s.phases[c]).value.id)
  }

  /** The invariant for one client and one JobID. */
  predicate Local(s: State, d: Client, i: UInt32) {
    && (s.lock.Some? ==> s.lock.value in s.phases)
    && IdOk(s, i) && ClientOk(s, d) && OwnerOk(s, d, i)
  }

  /** What a step of client `c` that touches job `id` needs to know, to keep the invariant for `d` and `i`. */
  predicate Near(s: State, c: Client, id: UInt32, d: Client, i: UInt32) {
    && s.puts < 0x1_0000_0000 && Local(s, c, i) && Local(s, d, i) && Local(s, c, id)
    && CargoIdOk(s, c) && CargoIdOk(s, d)
  }

  /** The job a step is about, if any. */
  function Touched(s: State, step: Step): UInt32
    requires step.c in s.phases || step.Connect?
  {
    match step
    case Get(_, _, _, Some(id)) => id
    case Wake(_, Some(id)) => id
    case DeleteBegin(_, id) => id
    case AbortBegin(_, id) => id
    case LeavePush(_, id) => id
    case DeleteEnd(c) => if s.phases[c].Deleting? then s.phases[c].id else 0
    case LeaveForget(c) => if s.phases[c].Leaving? && s.phases[c].doomed.Some? then s.phases[c].doomed.value else 0
    case _ => 0
  }

  lemma {:induction false} PhaseStepLocal(s: State, step: Step, d: Client, i: UInt32)
    requires step.Connect? || step.Cancel? || step.LeaveBegin? || step.LeaveEnd?
    requires Enabled(s, step) && Near(s, step.c, Touched(s, step), d, i)
    ensures Local(Apply(s, step), d, i)
  {
  }

  lemma {:induction false} PutStepLocal(s: State, step: Step, d: Client, i: UInt32)
    requires step.PutAlloc?
    requires Enabled(s, step) && Near(s, step.c, Touched(s, step), d, i) && Apply(s, step).puts < 0x1_0000_0000
    ensures Local(Apply(s, step), d, i)
  {
  }

  lemma {:induction false} PushStepLocal(s: State, step: Step, d: Client, i: UInt32)
    requires step.PutPush? || step.AbortEnd?
    requires Enabled(s, step) && Near(s, step.c, Touched(s, step), d, i)
    ensures Local(Apply(s, step), d, i)
  {
  }

  lemma {:induction false} ScanLocal(s: State, c: Client, names: set<string>, captured: set<string>, wait: bool,
                                     pick: Option<UInt32>, id: UInt32, d: Client, i: UInt32)
    requires c in s.phases && (s.phases[c].Idle? || s.phases[c].Popping?) && CanScan(s, captured, pick)
    requires Near(s, c, id, d, i) && (pick.Some? ==> pick.value == id)
    ensures Local(Scan(s, c, names, captured, wait, pick), d, i)
  {
  }

  lemma {:induction false} RecordStepLocal(s: State, step: Step, d: Client, i: UInt32)
    requires step.Record? || step.AbortBegin?
    requires Enabled(s, step) && Near(s, step.c, Touched(s, step), d, i)
    ensures Local(Apply(s, step), d, i)
  {
  }

  lemma {:induction false} DeleteStepLocal(s: State, step: Step, d: Client, i: UInt32)
    requires step.DeleteBegin? || step.DeleteEnd?
    requires Enabled(s, step) && Near(s, step.c, Touched(s, step), d, i)
    ensures Local(Apply(s, step), d, i)
  {
  }

  lemma {:induction false} LeaveStepLocal(s: State, step: Step, d: Client, i: UInt32)
    requires step.LeavePush? || step.LeaveForget?
    requires Enabled(s, step) && Near(s, step.c, Touched(s, step), d, i)
    ensures Local(Apply(s, step), d, i)
  {
  }

  lemma {:induction false} ScanStepLocal(s: State, step: Step, d: Client, i: UInt32)
    requires step.Get? || step.Wake?
    requires Enabled(s, step) && Near(s, step.c, Touched(s, step), d, i)
    ensures Local(Apply(s, step), d, i)
  {
    var c, id := step.c, Touched(s, step);
    if step.Get? {
      ScanLocal(s, c, step.names, step.names * s.names, step.wait, step.pick, id, d, i);
    } else {
      ScanLocal(s, c, s.phases[c].names, s.phases[c].captured, true, step.pick, id, d, i);
    }
  }

  /** The steps under the handler lock. */
  lemma {:induction false} LockStepLocal(s: State, step: Step, d: Client, i: UInt32)
    requires !(step.Get? || step.Wake? || step.PutAlloc? || step.PutPush? || step.AbortEnd?)
    requires Enabled(s, step) && Near(s, step.c, Touched(s, step), d, i)
    ensures Local(Apply(s, step), d, i)
  {
    if step.Record? || step.AbortBegin? {
      RecordStepLocal(s, step, d, i);
    } else if step.DeleteBegin? || step.DeleteEnd? {
      DeleteStepLocal(s, step, d, i);
    } else if step.LeavePush? || step.LeaveForget? {
      LeaveStepLocal(s, step, d, i);
    } else {
      PhaseStepLocal(s, step, d, i);
    }
  }

  lemma {:induction false} StepLocal(s: State, step: Step, d: Client, i: UInt32)
    requires Enabled(s, step) && Near(s, step.c, Touched(s, step), d, i) && Apply(s, step).puts < 0x1_0000_0000
    ensures Local(Apply(s, step), d, i)
  {
    if step.Get? || step.Wake? {
      ScanStepLocal(s, step, d, i);
    } else if step.PutAlloc? {
      PutStepLocal(s, step, d, i);
    } else if step.PutPush? || step.AbortEnd? {
      PushStepLocal(s, step, d, i);
    } else {
      LockStepLocal(s, step, d, i);
    }
  }

  lemma {:induction false} EverythingIsNear(s: State, c: Client, id: UInt32, d: Client, i: UInt32)
    requires JobsInv(s)
    ensures Near(s, c, id, d, i)
  {
    assert IdOk(s, i) && IdOk(s, id) && ClientOk(s, c) && ClientOk(s, d);
    assert OwnerOk(s, c, i) && OwnerOk(s, c, id) && OwnerOk(s, d, i);
  }

  lemma {:induction false} StepKeepsJobs(s: State, step: Step)
    requires JobsInv(s) && Enabled(s, step) && Apply(s, step).puts < 0x1_0000_0000
    ensures JobsInv(Apply(s, step))
  {
    forall d, i: UInt32 ensures Local(Apply(s, step), d, i) {
      EverythingIsNear(s, step.c, Touched(s, step), d, i);
      StepLocal(s, step, d, i);
    }
    LocalEverywhere(Apply(s, step));
  }

  lemma {:induction false} LocalEverywhere(s: State)
    requires s.puts < 0x1_0000_0000 && forall d, i: UInt32 :: Local(s, d, i)
    ensures JobsInv(s)
  {
    assert Local(s, "", 0);
    forall i ensures IdOk(s, i) {
      assert Local(s, "", i);
    }
    forall d ensures ClientOk(s, d) {
      assert Local(s, d, 0);
    }
    forall d, i ensures OwnerOk(s, d, i) {
      assert Local(s, d, i);
    }
  }

  // ---------- the invariant of the notifiers ----------

  /** Registered notifiers are distinct, known and open; nothing is closed twice. */
  ghost predicate ChannelsOk(s: State) {
    && (forall i :: 0 <= i < |s.notifiers| ==> s.notifiers[i] < s.made && s.notifiers[i] !in s.closed)
    && (forall i :: 0 <= i < |s.closed| ==> s.closed[i] < s.made)
    && (forall i, j :: 0 <= i < j < |s.notifiers| ==> s.notifiers[i] != s.notifiers[j])
    && (forall i, j :: 0 <= i < j < |s.closed| ==> s.closed[i] != s.closed[j])
  }

  /** A blocked Pop has a registered or closed channel, and an open channel means nothing to take. */
  ghost predicate WaiterOk(s: State, c: Client) {
    c in s.phases && s.phases[c].Popping? ==>
      var Popping(names, captured, chan) := s.phases[c];
      && captured <= names * s.names
      && (chan in s.notifiers || chan in s.closed)
      && (chan !in s.closed ==> NoneOffered(s.queued, captured))
  }

  ghost predicate NotifyInv(s: State) {
    ChannelsOk(s) && forall c :: WaiterOk(s, c)
  }

  lemma {:induction false} PushChannels(s: State, j: Job)
    requires ChannelsOk(s)
    ensures ChannelsOk(Push(s, j))
  {
    var s' := Push(s, j);
    forall i, k | 0 <= i < k < |s'.closed| ensures s'.closed[i] != s'.closed[k] {
      if k >= |s.closed| {
        assert s'.closed[k] == s.notifiers[k - |s.closed|];
        assert i >= |s.closed| ==> s'.closed[i] == s.notifiers[i - |s.closed|];
      }
    }
  }

  /** A push closes every registered notifier, so no blocked Pop keeps an open one. */
  lemma {:induction false} PushKeepsNotify(s: State, s': State, j: Job)
    requires NotifyInv(s)
    requires s'.queued == Push(s, j).queued && s'.names == Push(s, j).names && s'.made == s.made
    requires s'.closed == Push(s, j).closed && s'.notifiers == []
    requires forall c :: c in s'.phases && s'.phases[c].Popping? ==> c in s.phases && s.phases[c] == s'.phases[c]
    ensures NotifyInv(s')
  {
    PushChannels(s, j);
    forall c ensures WaiterOk(s', c) {
      assert WaiterOk(s, c);
    }
  }

  /** Taking jobs away and changing what is not about waiting keeps every waiter right. */
  lemma {:induction false} QuietKeepsNotify(s: State, s': State)
    requires NotifyInv(s)
    requires s'.names == s.names && s'.made == s.made && s'.closed == s.closed && s'.notifiers == s.notifiers
    requires forall id :: id in s'.queued ==> id in s.queued && s'.queued[id] == s.queued[id]
    requires forall c :: c in s'.phases && s'.phases[c].Popping? ==> c in s.phases && s.phases[c] == s'.phases[c]
    ensures NotifyInv(s')
  {
    forall c ensures WaiterOk(s', c) {
      assert WaiterOk(s, c);
      assert forall captured, id :: Offers(s'.queued, captured, id) ==> Offers(s.queued, captured, id);
    }
  }

  lemma {:induction false} ScanKeepsNotify(s: State, c: Client, names: set<string>, captured: set<string>, wait: bool,
                        pick: Option<UInt32>)
    requires NotifyInv(s) && CanScan(s, captured, pick) && captured <= names * s.names
    ensures NotifyInv(Scan(s, c, names, captured, wait, pick))
  {
    var s' := Scan(s, c, names, captured, wait, pick);
    if pick.None? && wait {
      forall d ensures WaiterOk(s', d) {
        assert WaiterOk(s, d);
        assert s'.notifiers[|s.notifiers|] == s.made;
      }
    } else {
      QuietKeepsNotify(s, s');
    }
  }

  lemma {:induction false} StepKeepsNotify(s: State, step: Step)
    requires NotifyInv(s) && Enabled(s, step)
    ensures NotifyInv(Apply(s, step))
  {
    var s' := Apply(s, step);
    match step {
      case PutPush(c) => PushKeepsNotify(s, s', s.phases[c].job);
      case AbortEnd(c) => PushKeepsNotify(s, s', s.phases[c].job);
      case LeavePush(c, id) =>
        if id in s.inProgress {
          PushKeepsNotify(s, s', s.inProgress[id].job);
        } else {
          QuietKeepsNotify(s, s');
        }
      case Get(c, names, wait, pick) => ScanKeepsNotify(s, c, names, names * s.names, wait, pick);
      case Wake(c, pick) =>
        assert WaiterOk(s, c);
        ScanKeepsNotify(s, c, s.phases[c].names, s.phases[c].captured, true, pick);
      case _ => OtherKeepsNotify(s, step);
    }
  }

  lemma {:induction false} OtherKeepsNotify(s: State, step: Step)
    requires NotifyInv(s) && Enabled(s, step)
    requires !(step.PutPush? || step.AbortEnd? || step.LeavePush? || step.Get? || step.Wake?)
    ensures NotifyInv(Apply(s, step))
  {
    QuietKeepsNotify(s, Apply(s, step));
  }

  // ---------- whole runs ----------

  ghost predicate Legal(s: State, steps: seq<Step>)
    decreases |steps|
  {
    steps == [] || (Enabled(s, steps[0]) && Legal(Apply(s, steps[0]), steps[1..]))
  }

  ghost function Run(s: State, steps: seq<Step>): State
    requires Legal(s, steps)
    decreases |steps|
  {
    if steps == [] then s else Run(Apply(s, steps[0]), steps[1..])
  }

  ghost predicate Gone(s: State, id: UInt32) {
    id in s.place && s.place[id] == Deleted
  }

  /** What no step undoes: JobIDs handed out, jobs as they were put, and deletion. */
  ghost predicate Advances(s: State, t: State) {
    && s.puts <= t.puts
    && (forall id :: Gone(s, id) ==> Gone(t, id))
    && (forall id :: id in s.put ==> id in t.put && t.put[id] == s.put[id])
  }

  lemma {:induction false} ScanKeepsDeleted(s: State, c: Client, names: set<string>, captured: set<string>, wait: bool,
                                            pick: Option<UInt32>, id: UInt32)
    requires CanScan(s, captured, pick) && IdOk(s, id) && Gone(s, id)
    ensures Gone(Scan(s, c, names, captured, wait, pick), id)
  {
    assert pick.Some? ==> Offers(s.queued, captured, pick.value);
  }

  /** Neither putting nor pushing brings a deleted job back. */
  lemma {:induction false} PutKeepsDeleted(s: State, step: Step, id: UInt32)
    requires step.PutAlloc? || step.PutPush? || step.AbortEnd?
    requires Enabled(s, step) && IdOk(s, id) && ClientOk(s, step.c) && s.puts < 0x1_0000_0000
    requires step.PutAlloc? ==> s.puts + 1 < 0x1_0000_0000
    requires Gone(s, id)
    ensures Gone(Apply(s, step), id)
  {
  }

  /** Nor does giving back what is in progress. */
  lemma {:induction false} LockKeepsDeleted(s: State, step: Step, id: UInt32)
    requires step.Record? || step.DeleteEnd? || step.AbortBegin? || step.LeavePush?
    requires Enabled(s, step) && IdOk(s, id) && ClientOk(s, step.c)
    requires step.LeavePush? ==> IdOk(s, step.id)
    requires Gone(s, id)
    ensures Gone(Apply(s, step), id)
  {
  }

  lemma {:induction false} DeletedStays(s: State, step: Step, id: UInt32)
    requires Enabled(s, step) && IdOk(s, id) && ClientOk(s, step.c) && s.puts < 0x1_0000_0000
    requires step.PutAlloc? ==> s.puts + 1 < 0x1_0000_0000
    requires step.LeavePush? ==> IdOk(s, step.id)
    requires Gone(s, id)
    ensures Gone(Apply(s, step), id)
  {
    match step {
      case Get(c, names, wait, pick) => ScanKeepsDeleted(s, c, names, names * s.names, wait, pick, id);
      case Wake(c, pick) => ScanKeepsDeleted(s, c, s.phases[c].names, s.phases[c].captured, true, pick, id);
      case PutAlloc(_, _, _, _) => PutKeepsDeleted(s, step, id);
      case PutPush(_) => PutKeepsDeleted(s, step, id);
      case AbortEnd(_) => PutKeepsDeleted(s, step, id);
      case Record(_) => LockKeepsDeleted(s, step, id);
      case DeleteEnd(_) => LockKeepsDeleted(s, step, id);
      case AbortBegin(_, _) => LockKeepsDeleted(s, step, id);
      case LeavePush(_, _) => LockKeepsDeleted(s, step, id);
      case _ =>
    }
  }

  lemma {:induction false} ScanPutsNothing(s: State, c: Client, names: set<string>, captured: set<string>, wait: bool,
                                           pick: Option<UInt32>)
    requires pick.Some? ==> pick.value in s.queued
    ensures var t := Scan(s, c, names, captured, wait, pick); t.puts == s.puts && t.put == s.put
  {
  }

  /** Only a put changes the counter or the history of puts. */
  lemma {:induction false} OthersPutNothing(s: State, step: Step)
    requires Enabled(s, step) && !step.PutAlloc?
    ensures Apply(s, step).puts == s.puts && Apply(s, step).put == s.put
  {
    match step {
      case Get(c, names, wait, pick) => ScanPutsNothing(s, c, names, names * s.names, wait, pick);
      case Wake(c, pick) => ScanPutsNothing(s, c, s.phases[c].names, s.phases[c].captured, true, pick);
      case _ =>
    }
  }

  lemma {:induction false} PutStays(s: State, step: Step, id: UInt32)
    requires Enabled(s, step) && IdOk(s, id) && id in s.put
    requires step.PutAlloc? ==> s.puts + 1 < 0x1_0000_0000
    ensures id in Apply(s, step).put && Apply(s, step).put[id] == s.put[id]
  {
    if !step.PutAlloc? {
      OthersPutNothing(s, step);
    }
  }

  lemma {:induction false} PutsGrow(s: State, step: Step)
    requires Enabled(s, step)
    ensures Apply(s, step).puts == s.puts + (if step.PutAlloc? then 1 else 0)
  {
    if !step.PutAlloc? {
      OthersPutNothing(s, step);
    }
  }

  lemma {:induction false} StepAdvances(s: State, step: Step)
    requires JobsInv(s) && Enabled(s, step) && Apply(s, step).puts < 0x1_0000_0000
    ensures Advances(s, Apply(s, step))
  {
    var t := Apply(s, step);
    PutsGrow(s, step);
    assert ClientOk(s, step.c);
    forall id | Gone(s, id) ensures Gone(t, id) {
      assert IdOk(s, id) && (step.LeavePush? ==> IdOk(s, step.id));
      DeletedStays(s, step, id);
    }
    forall id | id in s.put ensures id in t.put && t.put[id] == s.put[id] {
      assert IdOk(s, id);
      PutStays(s, step, id);
    }
  }

  ghost predicate Inv(s: State) {
    JobsInv(s) && NotifyInv(s)
  }

  lemma {:induction false} PutsOnlyGrow(s: State, steps: seq<Step>)
    requires Legal(s, steps)
    ensures s.puts <= Run(s, steps).puts
    decreases |steps|
  {
    if steps != [] {
      PutsGrow(s, steps[0]);
      PutsOnlyGrow(Apply(s, steps[0]), steps[1..]);
    }
  }

  lemma {:induction false} RunKeeps(s: State, steps: seq<Step>)
    requires Inv(s) && Legal(s, steps) && Run(s, steps).puts < 0x1_0000_0000
    ensures Inv(Run(s, steps)) && Advances(s, Run(s, steps))
    decreases |steps|
  {
    if steps != [] {
      var t := Apply(s, steps[0]);
      PutsOnlyGrow(t, steps[1..]);
      StepKeepsJobs(s, steps[0]);
      StepKeepsNotify(s, steps[0]);
      StepAdvances(s, steps[0]);
      RunKeeps(t, steps[1..]);
    }
  }

  // ---------- every job is in one place ----------

  ghost predicate BeingPut(s: State, id: UInt32) {
    exists c :: c in s.phases && s.phases[c].Putting? && s.phases[c].job.id == id
  }

  ghost predicate InHand(s: State, id: UInt32) {
    exists c :: c in s.phases && s.phases[c].Holding? && s.phases[c].job.id == id
  }

  ghost predicate BeingAborted(s: State, id: UInt32) {
    exists c :: c in s.phases && s.phases[c].Aborting? && s.phases[c].job.id == id
  }

  ghost predicate WorkedOn(s: State, id: UInt32) {
    id in s.inProgress && !Doomed(s, id)
  }

  function Count(b: bool): nat {
    if b then 1 else 0
  }

  ghost function Places(s: State, id: UInt32): nat {
    Count(BeingPut(s, id)) + Count(id in s.queued) + Count(InHand(s, id))
    + Count(BeingAborted(s, id)) + Count(WorkedOn(s, id)) + Count(Gone(s, id))
  }

  /** A client that carries a job is the one the history names. */
  lemma {:induction false} CarriedBy(s: State, id: UInt32)
    requires JobsInv(s)
    ensures BeingPut(s, id) || InHand(s, id) || BeingAborted(s, id) ==> id in s.place && s.place[id].Carried?
    ensures id in s.place && s.place[id].Carried? ==>
      var c := s.place[id].client;
      && c in s.phases
      && (BeingPut(s, id) <==> s.phases[c].Putting?)
      && (InHand(s, id) <==> s.phases[c].Holding?)
      && (BeingAborted(s, id) <==> s.phases[c].Aborting?)
  {
    assert IdOk(s, id);
    forall c | c in s.phases && Cargo(s.phases[c]).Some? && Cargo(s.phases[c]).value.id == id
      ensures id in s.place && s.place[id] == Carried(c)
    {
      assert ClientOk(s, c);
    }
  }

  lemma {:induction false} OnePlace(s: State, id: UInt32)
    requires JobsInv(s)
    ensures Places(s, id) == if 1 <= id <= s.puts then 1 else 0
  {
    assert IdOk(s, id);
    CarriedBy(s, id);
  }

  /**
   * In every reachable state of every interleaving, while fewer than 2^32 jobs have been put, each
   * JobID handed out is in exactly one of: being put, queued, popped and in hand, being aborted,
   * in progress, deleted; and no other JobID is anywhere.
   */
  lemma {:induction false} ExactlyOnePlace(steps: seq<Step>, id: UInt32)
    requires Legal(INIT, steps) && Run(INIT, steps).puts < 0x1_0000_0000
    ensures Places(Run(INIT, steps), id) == if 1 <= id <= Run(INIT, steps).puts then 1 else 0
  {
    RunKeeps(INIT, steps);
    OnePlace(Run(INIT, steps), id);
  }

  /** A deleted job stays deleted, and is in no queue, hand or client's work again. */
  lemma {:induction false} DeletedForever(before: seq<Step>, after: seq<Step>, id: UInt32)
    requires Legal(INIT, before) && Legal(Run(INIT, before), after)
    requires Run(Run(INIT, before), after).puts < 0x1_0000_0000 && Gone(Run(INIT, before), id)
    ensures var t := Run(Run(INIT, before), after);
      && Gone(t, id) && id !in t.queued && !WorkedOn(t, id)
      && !BeingPut(t, id) && !InHand(t, id) && !BeingAborted(t, id)
  {
    var s := Run(INIT, before);
    PutsOnlyGrow(s, after);
    RunKeeps(INIT, before);
    RunKeeps(s, after);
    OnePlace(Run(s, after), id);
  }

  /** Whoever has a job has it as it was put: queue, data and priority never change. */
  lemma {:induction false} ContentsKept(before: seq<Step>, after: seq<Step>, id: UInt32)
    requires Legal(INIT, before) && Legal(Run(INIT, before), after)
    requires Run(Run(INIT, before), after).puts < 0x1_0000_0000 && id in Run(INIT, before).put
    ensures var j, t := Run(INIT, before).put[id], Run(Run(INIT, before), after);
      && (id in t.queued ==> t.queued[id] == j)
      && (id in t.inProgress ==> t.inProgress[id].job == j)
      && (forall c :: c in t.phases && Cargo(t.phases[c]).Some? && Cargo(t.phases[c]).value.id == id ==>
            Cargo(t.phases[c]) == Some(j))
  {
    var s := Run(INIT, before);
    PutsOnlyGrow(s, after);
    RunKeeps(INIT, before);
    RunKeeps(s, after);
    var t := Run(s, after);
    assert IdOk(t, id);
    forall c | c in t.phases && Cargo(t.phases[c]).Some? && Cargo(t.phases[c]).value.id == id
      ensures Cargo(t.phases[c]) == Some(s.put[id])
    {
      assert ClientOk(t, c);
    }
  }

  /** JobIDs repeat exactly every 2^32 puts. */
  lemma {:induction false} IdsRepeat(p: nat, q: nat)
    ensures NextId(p) == NextId(q) <==> (p - q) % 0x1_0000_0000 == 0
  {
    var m := 0x1_0000_0000;
    assert (p + 1) - (q + 1) == p - q;
    if NextId(p) == NextId(q) {
      assert p - q == m * ((p + 1) / m - (q + 1) / m);
    }
  }

  // ---------- ownership ----------

  /** Recording a popped job never meets a missing client entry. */
  lemma {:induction false} RecordFindsClient(steps: seq<Step>, c: Client)
    requires Legal(INIT, steps) && Run(INIT, steps).puts < 0x1_0000_0000 && Enabled(Run(INIT, steps), Record(c))
    ensures c in Run(INIT, steps).clientJob
  {
    RunKeeps(INIT, steps);
    assert ClientOk(Run(INIT, steps), c);
  }

  /** Whenever the handler lock is free, the clients' job sets and the table of jobs in progress are mutual inverses. */
  lemma {:induction false} MutualInverse(steps: seq<Step>, c: Client, id: UInt32)
    requires Legal(INIT, steps) && Run(INIT, steps).puts < 0x1_0000_0000 && Run(INIT, steps).lock.None?
    ensures var s := Run(INIT, steps);
      && (c in s.clientJob <==> c in s.phases)
      && (c in s.clientJob && id in s.clientJob[c] <==> id in s.inProgress && s.inProgress[id].client == c)
  {
    RunKeeps(INIT, steps);
    var s := Run(INIT, steps);
    assert ClientOk(s, c) && OwnerOk(s, c, id) && IdOk(s, id);
  }

  /** Only the client a job is in progress for can abort it; any other abort changes nothing. */
  lemma {:induction false} OnlyOwnerAborts(steps: seq<Step>, c: Client, id: UInt32)
    requires Legal(INIT, steps) && Run(INIT, steps).puts < 0x1_0000_0000
    requires Enabled(Run(INIT, steps), AbortBegin(c, id))
    ensures var s := Run(INIT, steps);
      var t := Apply(s, AbortBegin(c, id));
      if id in s.inProgress && s.inProgress[id].client == c
      then id !in t.inProgress && At(t, c, Aborting(s.inProgress[id].job))
      else t == s
  {
    RunKeeps(INIT, steps);
    var s := Run(INIT, steps);
    assert OwnerOk(s, c, id) && ClientOk(s, c) && IdOk(s, id);
  }

  // ---------- disconnecting ----------

  /** The jobs that `c` pushes back while it disconnects. */
  ghost function PushedBack(c: Client, steps: seq<Step>): set<UInt32> {
    if steps == [] then {}
    else (if steps[0].LeavePush? && steps[0].c == c then {steps[0].id} else {}) + PushedBack(c, steps[1..])
  }

  /** Each of those pushes takes a job in progress for `c`, and leaves it in its queue as it was put. */
  ghost predicate PushesLand(s: State, steps: seq<Step>, c: Client)
    requires Legal(s, steps)
    decreases |steps|
  {
    steps == [] ||
    ((steps[0].LeavePush? && steps[0].c == c ==> Lands(s, Apply(s, steps[0]), c, steps[0].id)) &&
     PushesLand(Apply(s, steps[0]), steps[1..], c))
  }

  ghost predicate Lands(s: State, t: State, c: Client, id: UInt32) {
    && id in s.inProgress && s.inProgress[id].client == c && id !in s.queued
    && id in s.put && id in t.queued && t.queued[id] == s.put[id]
  }

  lemma {:induction false} ScanLeavesPhase(s: State, d: Client, names: set<string>, captured: set<string>, wait: bool,
                        pick: Option<UInt32>, c: Client)
    requires d != c && c in s.phases && (pick.Some? ==> pick.value in s.queued)
    ensures var t := Scan(s, d, names, captured, wait, pick); c in t.phases && t.phases[c] == s.phases[c]
  {
  }

  lemma {:induction false} OthersLeavePhase(s: State, step: Step, c: Client)
    requires Enabled(s, step) && step.c != c && c in s.phases
    ensures c in Apply(s, step).phases && Apply(s, step).phases[c] == s.phases[c]
  {
    match step {
      case Get(d, names, wait, pick) => ScanLeavesPhase(s, d, names, names * s.names, wait, pick, c);
      case Wake(d, pick) => ScanLeavesPhase(s, d, s.phases[d].names, s.phases[d].captured, true, pick, c);
      case _ =>
    }
  }

  /** One step of a run in which `c` is disconnecting: only its own pushes add to what it has visited. */
  lemma {:induction false} LeavingStep(s: State, step: Step, c: Client)
    requires JobsInv(s) && Enabled(s, step) && step != LeaveEnd(c) && c in s.phases && s.phases[c].Leaving?
    ensures var t := Apply(s, step);
      && c in t.phases && t.phases[c].Leaving? && t.phases[c].owned == s.phases[c].owned
      && t.phases[c].visited == s.phases[c].visited + PushedBack(c, [step])
      && (step.LeavePush? && step.c == c ==> Lands(s, t, c, step.id))
  {
    assert [step][1..] == [];
    assert PushedBack(c, []) == {};
    if step.c != c {
      OthersLeavePhase(s, step, c);
    } else if step.LeavePush? {
      assert OwnerOk(s, c, step.id) && IdOk(s, step.id) && ClientOk(s, c);
    }
  }

  lemma {:induction false} LeavingRun(s: State, steps: seq<Step>, c: Client)
    requires JobsInv(s) && Legal(s, steps) && Run(s, steps).puts < 0x1_0000_0000
    requires LeaveEnd(c) !in steps && c in s.phases && s.phases[c].Leaving?
    ensures var t := Run(s, steps);
      && JobsInv(t) && c in t.phases && t.phases[c].Leaving? && t.phases[c].owned == s.phases[c].owned
      && t.phases[c].visited == s.phases[c].visited + PushedBack(c, steps)
    ensures PushesLand(s, steps, c)
    decreases |steps|
  {
    if steps != [] {
      var t := Apply(s, steps[0]);
      PutsOnlyGrow(t, steps[1..]);
      LeavingStep(s, steps[0], c);
      StepKeepsJobs(s, steps[0]);
      LeavingRun(t, steps[1..], c);
      assert PushedBack(c, [steps[0]]) == if steps[0].LeavePush? && steps[0].c == c then {steps[0].id} else {} by {
        assert [steps[0]][1..] == [];
        assert PushedBack(c, []) == {};
      }
    }
  }

  /** Once it is done, nothing is in progress for the client. */
  lemma {:induction false} LeavesNothing(s: State, c: Client)
    requires JobsInv(s) && Enabled(s, LeaveEnd(c))
    ensures var t := Apply(s, LeaveEnd(c));
      c !in t.clientJob && forall id :: id in t.inProgress ==> t.inProgress[id].client != c
  {
    var t := Apply(s, LeaveEnd(c));
    forall id | id in t.inProgress ensures t.inProgress[id].client != c {
      assert OwnerOk(s, c, id) && ClientOk(s, c);
    }
  }

  /**
   * A disconnect pushes back exactly the jobs in progress for the client when it took the lock,
   * whatever the other clients do meanwhile: each leaves the table for its queue, as it was put, and
   * none is left in progress for the client.
   */
  lemma {:induction false} DisconnectRequeuesOwned(before: seq<Step>, c: Client, during: seq<Step>)
    requires Legal(INIT, before) && Enabled(Run(INIT, before), LeaveBegin(c))
    requires var s := Apply(Run(INIT, before), LeaveBegin(c));
      && Legal(s, during) && LeaveEnd(c) !in during
      && Run(s, during).puts < 0x1_0000_0000 && Enabled(Run(s, during), LeaveEnd(c))
    ensures forall id :: id in PushedBack(c, during) <==>
      id in Run(INIT, before).inProgress && Run(INIT, before).inProgress[id].client == c
    ensures PushesLand(Apply(Run(INIT, before), LeaveBegin(c)), during, c)
    ensures var t := Apply(Run(Apply(Run(INIT, before), LeaveBegin(c)), during), LeaveEnd(c));
      c !in t.clientJob && forall id :: id in t.inProgress ==> t.inProgress[id].client != c
  {
    var s0 := Run(INIT, before);
    var s := Apply(s0, LeaveBegin(c));
    PutsOnlyGrow(s, during);
    RunKeeps(INIT, before);
    StepKeepsJobs(s0, LeaveBegin(c));
    LeavingRun(s, during, c);
    var t := Run(s, during);
    LeavesNothing(t, c);
    assert ClientOk(t, c) && ClientOk(s0, c);
    forall id ensures id in PushedBack(c, during) <==> id in s0.inProgress && s0.inProgress[id].client == c {
      assert OwnerOk(s0, c, id);
    }
  }

  // ---------- waiting ----------

  /**
   * No wakeup is lost: a Pop blocked on an open notifier has nothing to take in the queues it
   * captured, and over the whole run no notifier is closed twice.
   */
  lemma {:induction false} NoLostWakeup(steps: seq<Step>, c: Client)
    requires Legal(INIT, steps) && Run(INIT, steps).puts < 0x1_0000_0000
    ensures var s := Run(INIT, steps);
      && (forall i, j :: 0 <= i < j < |s.closed| ==> s.closed[i] != s.closed[j])
      && (c in s.phases && s.phases[c].Popping? && s.phases[c].chan !in s.closed ==>
            && s.phases[c].chan in s.notifiers
            && NoneOffered(s.queued, s.phases[c].captured)
            && forall id :: Offers(s.queued, s.phases[c].names, id) ==> s.queued[id].queue !in s.phases[c].captured)
  {
    RunKeeps(INIT, steps);
    var s := Run(INIT, steps);
    assert WaiterOk(s, c);
    if c in s.phases && s.phases[c].Popping? && s.phases[c].chan !in s.closed {
      forall id | Offers(s.queued, s.phases[c].names, id) ensures s.queued[id].queue !in s.phases[c].captured {
        assert !Offers(s.queued, s.phases[c].captured, id);
      }
    }
  }

  lemma {:induction false} RunConcat(s: State, a: seq<Step>, b: seq<Step>)
    requires Legal(s, a) && Legal(Run(s, a), b)
    ensures Legal(s, a + b) && Run(s, a + b) == Run(Run(s, a), b)
    decreases |a|
  {
    if a == [] {
      assert a + b == b;
    } else {
      assert (a + b)[1..] == a[1..] + b;
      RunConcat(Apply(s, a[0]), a[1..], b);
    }
  }

  lemma {:induction false} RunOne(s: State, step: Step)
    requires Enabled(s, step)
    ensures Legal(s, [step]) && Run(s, [step]) == Apply(s, step)
  {
    assert [step][1..] == [];
  }

  lemma {:induction false} RunSnoc(s: State, a: seq<Step>, step: Step, t: State)
    requires Legal(s, a) && Enabled(Run(s, a), step) && t == Apply(Run(s, a), step)
    ensures Legal(s, a + [step]) && Run(s, a + [step]) == t
  {
    RunOne(Run(s, a), step);
    RunConcat(s, a, [step]);
  }

  // ---------- the queues a waiting Pop looks at ----------

  /** In these steps client `c` does nothing but wake up and find nothing. */
  ghost predicate StaysBlocked(c: Client, steps: seq<Step>) {
    forall i :: 0 <= i < |steps| && steps[i].c == c ==> steps[i] == Wake(c, None)
  }

  ghost predicate Waits(s: State, c: Client, names: set<string>, captured: set<string>) {
    c in s.phases && s.phases[c].Popping? && s.phases[c].names == names && s.phases[c].captured == captured
  }

  /** The queues are captured once. */
  lemma {:induction false} StillWaits(s: State, steps: seq<Step>, c: Client, names: set<string>, captured: set<string>)
    requires Legal(s, steps) && Waits(s, c, names, captured) && StaysBlocked(c, steps)
    ensures Waits(Run(s, steps), c, names, captured)
    decreases |steps|
  {
    if steps != [] {
      var t, rest := Apply(s, steps[0]), steps[1..];
      if steps[0].c != c {
        OthersLeavePhase(s, steps[0], c);
      }
      assert StaysBlocked(c, rest) by {
        forall i | 0 <= i < |rest| && rest[i].c == c ensures rest[i] == Wake(c, None) {
          assert rest[i] == steps[i + 1];
        }
      }
      StillWaits(t, rest, c, names, captured);
    }
  }

  /** Some step of the run was this client's own get with `wait`; since then it has only been woken for nothing. */
  ghost predicate AskedToWait(steps: seq<Step>, c: Client, names: set<string>) {
    exists k :: 0 <= k < |steps| && steps[k] == Get(c, names, true, None) && StaysBlocked(c, steps[k + 1..])
  }

  lemma {:induction false} StaysBlockedCons(c: Client, step: Step, steps: seq<Step>)
    requires StaysBlocked(c, steps) && (step.c == c ==> step == Wake(c, None))
    ensures StaysBlocked(c, [step] + steps)
  {
  }

  lemma {:induction false} AskedToWaitCons(steps: seq<Step>, c: Client, names: set<string>)
    requires steps != [] && AskedToWait(steps[1..], c, names)
    ensures AskedToWait(steps, c, names)
  {
    var rest := steps[1..];
    var k :| 0 <= k < |rest| && rest[k] == Get(c, names, true, None) && StaysBlocked(c, rest[k + 1..]);
    assert steps[k + 1] == rest[k] && steps[k + 2..] == rest[k + 1..];
  }

  /** What makes a client wait, or leaves it waiting. */
  lemma {:induction false} WaitsAfter(s: State, step: Step, c: Client, names: set<string>, captured: set<string>)
    requires Enabled(s, step) && Waits(Apply(s, step), c, names, captured)
    ensures (step == Get(c, names, true, None) && captured == names * s.names)
      || (Waits(s, c, names, captured) && (step.c == c ==> step == Wake(c, None)))
  {
    if step.c != c && c in s.phases {
      OthersLeavePhase(s, step, c);
    }
  }

  lemma {:induction false} WaitsSince(s: State, steps: seq<Step>, c: Client, names: set<string>, captured: set<string>)
    requires Legal(s, steps) && Waits(Run(s, steps), c, names, captured)
    ensures AskedToWait(steps, c, names) || (Waits(s, c, names, captured) && StaysBlocked(c, steps))
    decreases |steps|
  {
    if steps != [] {
      var step, rest := steps[0], steps[1..];
      WaitsSince(Apply(s, step), rest, c, names, captured);
      if AskedToWait(rest, c, names) {
        AskedToWaitCons(steps, c, names);
      } else {
        WaitsAfter(s, step, c, names, captured);
        if step == Get(c, names, true, None) {
          assert steps[0 + 1..] == rest;
        } else {
          StaysBlockedCons(c, step, rest);
          assert [step] + rest == steps;
        }
      }
    }
  }

  /** Over any run, a client is blocked in Pop only if it asked to wait, for these queues, and has not been served. */
  lemma {:induction false} OnlyWaitersBlock(steps: seq<Step>, c: Client)
    requires Legal(INIT, steps) && c in Run(INIT, steps).phases && Run(INIT, steps).phases[c].Popping?
    ensures AskedToWait(steps, c, Run(INIT, steps).phases[c].names)
  {
    var p := Run(INIT, steps).phases[c];
    WaitsSince(INIT, steps, c, p.names, p.captured);
  }

  /** `during` follows the entry into a waiting Pop, and ends with it blocked on an open notifier. */
  ghost predicate Blocked(s: State, c: Client, during: seq<Step>) {
    && Legal(s, during) && StaysBlocked(c, during) && Run(s, during).puts < 0x1_0000_0000
    && var t := Run(s, during); c in t.phases && t.phases[c].Popping? && t.phases[c].chan !in t.closed
  }

  /**
   * As long as a Pop stays blocked it looks at the queues that it named and that existed at entry; on an
   * open notifier, there is nothing to take in those.
   */
  lemma {:induction false} BlockedPopSees(before: seq<Step>, c: Client, names: set<string>, during: seq<Step>)
    requires Legal(INIT, before) && Enabled(Run(INIT, before), Get(c, names, true, None))
    requires Blocked(Apply(Run(INIT, before), Get(c, names, true, None)), c, during)
    ensures var s := Run(INIT, before);
      var t := Run(Apply(s, Get(c, names, true, None)), during);
      && Waits(t, c, names, names * s.names)
      && NoneOffered(t.queued, names * s.names)
      && (names <= s.names ==> NoneOffered(t.queued, names))
  {
    var s := Run(INIT, before);
    var step := Get(c, names, true, None);
    var s1 := Apply(s, step);
    var t := Run(s1, during);
    PutsOnlyGrow(s1, during);
    RunKeeps(INIT, before);
    StepKeepsJobs(s, step);
    StepKeepsNotify(s, step);
    RunKeeps(s1, during);
    StillWaits(s1, during, c, names, names * s.names);
    assert WaiterOk(t, c);
    assert names <= s.names ==> names * s.names == names;
  }

  function MissSteps(c: Client, d: Client, queue: string, data: string, priority: UInt32): seq<Step> {
    [PutAlloc(d, queue, data, priority), PutPush(d), Wake(c, None)]
  }

  /** A put into a queue that the Pop did not capture wakes it for nothing. */
  lemma {:induction false} PutIsMissed(s: State, c: Client, d: Client, queue: string, data: string, priority: UInt32)
    requires NotifyInv(s) && c in s.phases && s.phases[c].Popping? && s.phases[c].chan !in s.closed
    requires queue !in s.phases[c].captured && At(s, d, Idle) && NextId(s.puts) !in s.queued
    ensures var a, b := PutAlloc(d, queue, data, priority), PutPush(d);
      && Enabled(s, a) && Enabled(Apply(s, a), b)
      && var t := Apply(Apply(s, a), b);
         Enabled(t, Wake(c, None)) && t.phases[c] == s.phases[c] && t.made == s.made
         && t.queued == s.queued[NextId(s.puts) := Job(queue, NextId(s.puts), data, priority)]
         && t.closed == s.closed + s.notifiers
  {
    assert WaiterOk(s, c);
    var id, captured := NextId(s.puts), s.phases[c].captured;
    var t := Apply(Apply(s, PutAlloc(d, queue, data, priority)), PutPush(d));
    forall i ensures !Offers(t.queued, captured, i) {
      assert !Offers(s.queued, captured, i);
    }
  }

  /**
   * Whenever a Pop is blocked on an open notifier and has named a queue it did not capture, a put of any
   * idle client into that queue leaves it blocked again, beside a job that it asked for.
   */
  lemma {:induction false} NewQueueIsMissed(before: seq<Step>, c: Client, d: Client, queue: string, data: string,
                                            priority: UInt32)
    requires Legal(INIT, before) && Run(INIT, before).puts + 1 < 0x1_0000_0000 && priority > 0
    requires var s := Run(INIT, before);
      && c in s.phases && s.phases[c].Popping? && s.phases[c].chan !in s.closed
      && queue in s.phases[c].names - s.phases[c].captured && At(s, d, Idle)
    ensures var s, steps := Run(INIT, before), MissSteps(c, d, queue, data, priority);
      && Blocked(s, c, steps)
      && var t := Run(s, steps);
         && Waits(t, c, s.phases[c].names, s.phases[c].captured)
         && Offers(t.queued, s.phases[c].names, NextId(s.puts))
  {
    RunKeeps(INIT, before);
    MissedFrom(Run(INIT, before), c, d, queue, data, priority);
  }

  lemma {:induction false} MissedFrom(s: State, c: Client, d: Client, queue: string, data: string, priority: UInt32)
    requires Inv(s) && s.puts + 1 < 0x1_0000_0000 && priority > 0
    requires c in s.phases && s.phases[c].Popping? && s.phases[c].chan !in s.closed
    requires queue in s.phases[c].names - s.phases[c].captured && At(s, d, Idle)
    ensures var steps := MissSteps(c, d, queue, data, priority);
      && Blocked(s, c, steps)
      && var t := Run(s, steps);
         && Waits(t, c, s.phases[c].names, s.phases[c].captured)
         && Offers(t.queued, s.phases[c].names, NextId(s.puts))
  {
    assert IdOk(s, NextId(s.puts));
    PutIsMissed(s, c, d, queue, data, priority);
    var a, b, w := PutAlloc(d, queue, data, priority), PutPush(d), Wake(c, None);
    RunThree(s, a, b, w);
    var t := Apply(Apply(s, a), b);
    ClosedAreMade(s);
    assert Apply(t, w).phases[c].chan == s.made;
  }

  lemma {:induction false} ClosedAreMade(s: State)
    requires ChannelsOk(s)
    ensures s.made !in s.closed + s.notifiers
  {
  }

  lemma {:induction false} RunThree(s: State, a: Step, b: Step, c: Step)
    requires Enabled(s, a) && Enabled(Apply(s, a), b) && Enabled(Apply(Apply(s, a), b), c)
    ensures Legal(s, [a, b, c]) && Run(s, [a, b, c]) == Apply(Apply(Apply(s, a), b), c)
  {
    RunOne(s, a);
    RunSnoc(s, [a], b, Apply(Apply(s, a), b));
    RunSnoc(s, [a] + [b], c, Apply(Apply(Apply(s, a), b), c));
    assert [a] + [b] + [c] == [a, b, c];
  }

  /**
   * A Pop that begins to wait beside an idle client is safe from that exactly when every queue it named
   * exists: then, and only then, it is never blocked on an open notifier beside a job that it asked for.
   */
  lemma {:induction false} BlockedPopIff(before: seq<Step>, c: Client, names: set<string>, d: Client)
    requires Legal(INIT, before) && Run(INIT, before).puts + 1 < 0x1_0000_0000
    requires Enabled(Run(INIT, before), Get(c, names, true, None)) && At(Run(INIT, before), d, Idle) && d != c
    ensures var s := Run(INIT, before);
      var s1 := Apply(s, Get(c, names, true, None));
      names <= s.names <==> forall during :: Blocked(s1, c, during) ==> NoneOffered(Run(s1, during).queued, names)
  {
    var s := Run(INIT, before);
    var step := Get(c, names, true, None);
    var s1 := Apply(s, step);
    if names <= s.names {
      forall during | Blocked(s1, c, during) ensures NoneOffered(Run(s1, during).queued, names) {
        BlockedPopSees(before, c, names, during);
      }
    } else {
      var queue :| queue in names && queue !in s.names;
      RunKeeps(INIT, before);
      StepKeepsJobs(s, step);
      StepKeepsNotify(s, step);
      ClosedAreMade(s);
      MissedFrom(s1, c, d, queue, "{}", 1);
      assert Offers(Run(s1, MissSteps(c, d, queue, "{}", 1)).queued, names, NextId(s1.puts));
    }
  }
}
