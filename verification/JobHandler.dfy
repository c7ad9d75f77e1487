/**
 * The request handler of the job centre: the JobID counter, the per-client job sets and the table of
 * jobs in progress, over the queues.  Each method is one request that no other request interrupts;
 * JobCentre is the same handler with its critical sections interleaved.
 */
module JobHandler {
  import opened Common
  import opened JobHeap
  import opened JobQueues
  import opened JobCentre

  type ClientJobs = map<Client, set<UInt32>>
  type Progress = map<UInt32, JobClient>

  /** A job is in a client's set exactly when it is in progress for that client. */
  ghost predicate Inverse(jobs: ClientJobs, progress: Progress) {
    && (forall id :: id in progress ==>
          progress[id].job.id == id && progress[id].client in jobs && id in jobs[progress[id].client])
    && (forall c, id :: c in jobs && id in jobs[c] ==> id in progress && progress[id].client == c)
  }

  lemma InverseRecord(jobs: ClientJobs, progress: Progress, c: Client, j: Job)
    requires Inverse(jobs, progress) && c in jobs && j.id !in progress
    ensures Inverse(jobs[c := jobs[c] + {j.id}], progress[j.id := JobClient(j, c)])
  {
  }

  lemma InverseStrike(jobs: ClientJobs, progress: Progress, id: UInt32)
    requires Inverse(jobs, progress) && id in progress
    ensures var c := progress[id].client; Inverse(jobs[c := jobs[c] - {id}], progress - {id})
  {
  }

  class Handler {
    var jobID: UInt32
    const queues: Queues
    var clientJob: ClientJobs
    var inProgress: Progress

    ghost predicate Valid()
      reads this, queues, queues.repr
    {
      && this !in queues.repr && queues.Valid()
      && Inverse(clientJob, inProgress)
      && inProgress.Keys !! queues.Model().Keys
    }

    constructor ()
      ensures Valid() && fresh(queues) && fresh(queues.repr)
      ensures queues.Model() == map[] && clientJob == map[] && inProgress == map[]
    {
      jobID := 0;
      queues := new Queues();
      clientJob, inProgress := map[], map[];
    }

    /** A fresh JobID, and the job under it in its queue; JobIDs are fresh until the counter wraps. */
    method PutJob(queue: string, data: string, priority: UInt32) returns (id: UInt32)
      requires Valid()
      modifies this`jobID, queues, queues.repr
      ensures id == NextId(old(jobID)) == jobID && fresh(queues.repr - old(queues.repr))
      ensures id !in old(queues.Model()) && id !in inProgress ==>
        Valid() && queues.Model() == old(queues.Model())[id := Job(queue, id, data, priority)]
    {
      jobID := NextId(jobID);
      id := jobID;
      queues.Push(Job(queue, id, data, priority));
    }

    /** Takes the best job of the named queues that exist, and records it for the client. */
    method GetJob(c: Client, names: seq<string>) returns (r: Option<Job>)
      requires Valid() && c in clientJob
      modifies this`clientJob, this`inProgress, queues, queues.repr
      ensures Valid()
      ensures var captured := (set n | n in names) * old(queues.jobQueues.Keys);
        && (r.None? <==> NoneOffered(old(queues.Model()), captured))
        && (r.Some? ==> IsBest(old(queues.Model()), captured, r.value.id) && r.value == old(queues.Model())[r.value.id])
      ensures r.None? ==> unchanged(this) && queues.Model() == old(queues.Model())
      ensures r.Some? ==>
        && queues.Model() == old(queues.Model()) - {r.value.id}
        && inProgress == old(inProgress)[r.value.id := JobClient(r.value, c)]
        && clientJob == old(clientJob)[c := old(clientJob)[c] + {r.value.id}]
    {
      r := TakeBest(names);
      if r.Some? {
        InverseRecord(clientJob, inProgress, c, r.value);
        Record(c, r.value);
      }
    }

    method TakeBest(names: seq<string>) returns (r: Option<Job>)
      requires queues.Valid()
      modifies queues, queues.repr
      ensures queues.Valid() && queues.repr == old(queues.repr)
      ensures var captured := (set n | n in names) * old(queues.jobQueues.Keys);
        && (r.None? <==> NoneOffered(old(queues.Model()), captured))
        && (r.Some? ==> IsBest(old(queues.Model()), captured, r.value.id) && r.value == old(queues.Model())[r.value.id])
      ensures queues.Model() == if r.None? then old(queues.Model()) else old(queues.Model()) - {r.value.id}
    {
      var captured := queues.Capture(names);
      r := queues.TryPop(captured);
    }

    method Record(c: Client, j: Job)
      requires c in clientJob
      modifies this`clientJob, this`inProgress
      ensures clientJob == old(clientJob)[c := old(clientJob)[c] + {j.id}]
      ensures inProgress == old(inProgress)[j.id := JobClient(j, c)]
    {
      clientJob := clientJob[c := clientJob[c] + {j.id}];
      inProgress := inProgress[j.id := JobClient(j, c)];
    }

    /** Deletes the job wherever it is, queued or in progress. */
    method DeleteJob(id: UInt32) returns (found: bool)
      requires Valid()
      modifies this`clientJob, this`inProgress, queues, queues.repr
      ensures Valid()
      ensures found <==> id in old(queues.Model()) || id in old(inProgress)
      ensures queues.Model() == old(queues.Model()) - {id} && inProgress == old(inProgress) - {id}
      ensures forall d :: d in old(clientJob) ==> d in clientJob && clientJob[d] == old(clientJob)[d] - {id}
      ensures clientJob.Keys == old(clientJob.Keys)
    {
      found := queues.Remove(id);
      if id in inProgress {
        found := true;
        InverseStrike(clientJob, inProgress, id);
        var owner := inProgress[id].client;
        if owner in clientJob {
          clientJob := clientJob[owner := clientJob[owner] - {id}];
        }
        inProgress := inProgress - {id};
      }
    }

    /** Gives a job in progress back to its queue; only its client may. */
    method AbortJob(c: Client, id: UInt32) returns (aborted: bool)
      requires Valid()
      modifies this`clientJob, this`inProgress, queues, queues.repr
      ensures Valid() && fresh(queues.repr - old(queues.repr))
      ensures aborted <==> id in old(inProgress) && old(inProgress)[id].client == c
      ensures !aborted ==> unchanged(this) && queues.Model() == old(queues.Model())
      ensures aborted ==>
        && queues.Model() == old(queues.Model())[id := old(inProgress)[id].job]
        && inProgress == old(inProgress) - {id}
        && clientJob == old(clientJob)[c := old(clientJob)[c] - {id}]
    {
      if id !in inProgress {
        return false;
      }
      if c !in clientJob || id !in clientJob[c] {
        return false;
      }
      var j := inProgress[id].job;
      InverseStrike(clientJob, inProgress, id);
      clientJob := clientJob[c := clientJob[c] - {id}];
      inProgress := inProgress - {id};
      queues.Push(j);
      return true;
    }

    method OnClientConnected(c: Client)
      requires Valid()
      modifies this`clientJob
      ensures Valid() && clientJob == if c in old(clientJob) then old(clientJob) else old(clientJob)[c := {}]
    {
      if c in clientJob {
        return;
      }
      clientJob := clientJob[c := {}];
    }

    /** Gives back every job in progress for the client, and forgets the client. */
    method OnClientDisconnected(c: Client)
      requires Valid()
      modifies this`clientJob, this`inProgress, queues, queues.repr
      ensures Valid() && fresh(queues.repr - old(queues.repr)) && clientJob == old(clientJob) - {c}
      ensures inProgress == old(inProgress) - OwnedBy(old(inProgress), c)
      ensures queues.Model() == old(queues.Model()) + Given(old(inProgress), OwnedBy(old(inProgress), c))
    {
      if c !in clientJob {
        NobodysJobs(clientJob, inProgress, c);
        return;
      }
      OwnedIsSet(clientJob, inProgress, c);
      Requeue(clientJob[c]);
      InverseForget(clientJob, old(inProgress), c);
      clientJob := clientJob - {c};
    }

    /** The loop of the disconnect: push each job back, then strike it from the table. */
    method Requeue(ids: set<UInt32>)
      requires this !in queues.repr && queues.Valid() && ids <= inProgress.Keys
      requires forall id :: id in ids ==> id !in queues.Model() && inProgress[id].job.id == id
      modifies this`inProgress, queues, queues.repr
      ensures this !in queues.repr && queues.Valid() && fresh(queues.repr - old(queues.repr))
      ensures inProgress == old(inProgress) - ids
      ensures queues.Model() == old(queues.Model()) + Given(old(inProgress), ids)
    {
      var rest := ids;
      ghost var model0, progress0 := queues.Model(), inProgress;
      HalfwayEnds(model0, progress0, ids);
      while rest != {}
        invariant this !in queues.repr && queues.Valid() && fresh(queues.repr - old(queues.repr))
        invariant rest <= ids && Halfway(model0, progress0, ids - rest, queues.Model(), inProgress)
        decreases |rest|
      {
        var id :| id in rest;
        RequeueNext(model0, progress0, ids - rest, id);
        assert ids - rest + {id} == ids - (rest - {id});
        rest := rest - {id};
      }
    }

    /** One turn of that loop. */
    method RequeueNext(ghost model0: map<UInt32, Job>, ghost progress0: Progress, ghost done: set<UInt32>, id: UInt32)
      requires this !in queues.repr && queues.Valid() && Halfway(model0, progress0, done, queues.Model(), inProgress)
      requires id in progress0 && id !in done && id !in model0 && progress0[id].job.id == id
      modifies this`inProgress, queues, queues.repr
      ensures this !in queues.repr && queues.Valid() && fresh(queues.repr - old(queues.repr))
      ensures Halfway(model0, progress0, done + {id}, queues.Model(), inProgress)
    {
      HalfwayStep(model0, progress0, done, queues.Model(), inProgress, id);
      RequeueOne(id);
    }

    method RequeueOne(id: UInt32)
      requires this !in queues.repr && queues.Valid()
      requires id in inProgress && inProgress[id].job.id == id && id !in queues.Model()
      modifies this`inProgress, queues, queues.repr
      ensures this !in queues.repr && queues.Valid() && fresh(queues.repr - old(queues.repr))
      ensures inProgress == old(inProgress) - {id}
      ensures queues.Model() == old(queues.Model())[id := old(inProgress)[id].job]
    {
      if id in inProgress {
        queues.Push(inProgress[id].job);
        inProgress := inProgress - {id};
      }
    }
  }

  ghost function OwnedBy(progress: Progress, c: Client): set<UInt32> {
    set id | id in progress && progress[id].client == c
  }

  /** The jobs of some JobIDs. */
  ghost function Given(progress: Progress, ids: set<UInt32>): map<UInt32, Job> {
    map id | id in ids && id in progress :: progress[id].job
  }

  /** Some jobs have moved from the table of jobs in progress into the queues. */
  ghost predicate Halfway(model0: map<UInt32, Job>, progress0: Progress, done: set<UInt32>,
                          model: map<UInt32, Job>, progress: Progress) {
    model == model0 + Given(progress0, done) && progress == progress0 - done
  }

  lemma HalfwayEnds(model: map<UInt32, Job>, progress: Progress, ids: set<UInt32>)
    ensures Halfway(model, progress, ids - ids, model, progress)
    ensures ids - {} == ids
  {
  }

  lemma HalfwayStep(model0: map<UInt32, Job>, progress0: Progress, done: set<UInt32>,
                    model: map<UInt32, Job>, progress: Progress, id: UInt32)
    requires Halfway(model0, progress0, done, model, progress) && id in progress0 && id !in done && id !in model0
    ensures id in progress && progress[id] == progress0[id] && id !in model
    ensures Halfway(model0, progress0, done + {id}, model[id := progress0[id].job], progress - {id})
  {
    GivenOneMore(model0, progress0, done, id);
  }

  lemma GivenOneMore(model: map<UInt32, Job>, progress: Progress, ids: set<UInt32>, id: UInt32)
    requires id in progress && id !in ids && id !in model
    ensures model + Given(progress, ids + {id}) == (model + Given(progress, ids))[id := progress[id].job]
    ensures id !in model + Given(progress, ids)
  {
  }

  lemma OwnedIsSet(jobs: ClientJobs, progress: Progress, c: Client)
    requires Inverse(jobs, progress) && c in jobs
    ensures jobs[c] == OwnedBy(progress, c)
  {
  }

  lemma NobodysJobs(jobs: ClientJobs, progress: Progress, c: Client)
    requires Inverse(jobs, progress) && c !in jobs
    ensures OwnedBy(progress, c) == {} && jobs - {c} == jobs && progress - {} == progress
    ensures forall model: map<UInt32, Job> :: model + Given(progress, {}) == model
  {
  }

  lemma InverseForget(jobs: ClientJobs, progress: Progress, c: Client)
    requires Inverse(jobs, progress)
    ensures Inverse(jobs - {c}, progress - OwnedBy(progress, c))
  {
  }

  // ---------- the object against the step system ----------

  /** Two steps of one client with nothing between them. */
  lemma {:induction false} RunTwo(s: State, a: Step, b: Step)
    requires Enabled(s, a) && Enabled(Apply(s, a), b)
    ensures Legal(s, [a, b]) && Run(s, [a, b]) == Apply(Apply(s, a), b)
  {
    RunOne(s, a);
    RunOne(Apply(s, a), b);
    RunConcat(s, [a], [b]);
    assert [a] + [b] == [a, b];
  }

  /** What a request leaves: the client idle again, the locks free, and these jobs in these places. */
  ghost predicate Leaves(s: State, t: State, queued: map<UInt32, Job>, jobs: ClientJobs, progress: Progress) {
    && t.queued == queued && t.clientJob == jobs && t.inProgress == progress
    && t.phases == s.phases && t.lock == s.lock
  }

  /** An uninterrupted PutJob leaves what the object's method leaves. */
  lemma {:induction false} PutIsRun(s: State, c: Client, queue: string, data: string, priority: UInt32)
    requires At(s, c, Idle)
    ensures var steps, id := [PutAlloc(c, queue, data, priority), PutPush(c)], NextId(s.puts);
      Legal(s, steps) &&
      Leaves(s, Run(s, steps), s.queued[id := Job(queue, id, data, priority)], s.clientJob, s.inProgress)
  {
    RunTwo(s, PutAlloc(c, queue, data, priority), PutPush(c));
    assert Apply(Apply(s, PutAlloc(c, queue, data, priority)), PutPush(c)).phases == s.phases;
  }

  lemma {:induction false} GetIsRun(s: State, c: Client, names: set<string>, wait: bool, id: UInt32)
    requires At(s, c, Idle) && c in s.clientJob && s.lock.None? && IsBest(s.queued, names * s.names, id)
    ensures var steps, j := [Get(c, names, wait, Some(id)), Record(c)], s.queued[id];
      Legal(s, steps) &&
      Leaves(s, Run(s, steps), s.queued - {id}, s.clientJob[c := s.clientJob[c] + {j.id}],
             s.inProgress[j.id := JobClient(j, c)])
  {
    RunTwo(s, Get(c, names, wait, Some(id)), Record(c));
    assert Apply(Apply(s, Get(c, names, wait, Some(id))), Record(c)).phases == s.phases;
  }

  /** A job that a get for these queues may take: in one of them, and of positive priority. */
  ghost predicate Wanted(s: State, names: set<string>, id: UInt32) {
    id in s.queued && s.queued[id].queue in names && s.queued[id].queue in s.names && s.queued[id].priority >= 1
  }

  /**
   * A get that does not wait answers at once: it finds no job exactly when none is wanted, and then the
   * state is as before, as the object's method leaves it.
   */
  lemma {:induction false} GetWithoutWait(s: State, c: Client, names: set<string>)
    requires At(s, c, Idle)
    ensures var steps := [Get(c, names, false, None)];
      && (Legal(s, steps) <==> forall id :: !Wanted(s, names, id))
      && (Legal(s, steps) ==> Run(s, steps) == s)
  {
    var step := Get(c, names, false, None);
    WantedIsOffered(s, names);
    if Enabled(s, step) {
      RunOne(s, step);
      assert s.phases[c := Idle] == s.phases;
    }
  }

  lemma {:induction false} WantedIsOffered(s: State, names: set<string>)
    ensures forall id :: Wanted(s, names, id) <==> Offers(s.queued, names * s.names, id)
  {
  }

  /** A get that waits blocks exactly then, on a new notifier, and nothing else changes. */
  lemma {:induction false} GetThatWaits(s: State, c: Client, names: set<string>)
    requires At(s, c, Idle)
    ensures var steps := [Get(c, names, true, None)];
      && (Legal(s, steps) <==> forall id :: !Wanted(s, names, id))
      && (Legal(s, steps) ==>
            Run(s, steps) == s.(notifiers := s.notifiers + [s.made], made := s.made + 1,
                                phases := s.phases[c := Popping(names, names * s.names, s.made)]))
  {
    var step := Get(c, names, true, None);
    WantedIsOffered(s, names);
    if Enabled(s, step) {
      RunOne(s, step);
    }
  }

  /** A get takes a job exactly when it is wanted and no wanted job outranks it; there is one if any is wanted. */
  lemma {:induction false} GetTakesBest(s: State, c: Client, names: set<string>, wait: bool, id: UInt32)
    requires At(s, c, Idle)
    ensures Legal(s, [Get(c, names, wait, Some(id))]) <==>
      && Wanted(s, names, id)
      && forall other :: Wanted(s, names, other) ==> s.queued[other].priority <= s.queued[id].priority
    ensures Wanted(s, names, id) ==> exists best :: Legal(s, [Get(c, names, wait, Some(best))])
  {
    WantedIsOffered(s, names);
    var step := Get(c, names, wait, Some(id));
    if Enabled(s, step) {
      RunOne(s, step);
    }
    if Wanted(s, names, id) {
      var best := BestOf(s.queued, names * s.names, s.queued.Keys, id);
      RunOne(s, Get(c, names, wait, Some(best)));
    }
  }

  /** The best of the offered jobs among these. */
  lemma {:induction false} BestOf(queued: map<UInt32, Job>, captured: set<string>, ids: set<UInt32>, id: UInt32)
    returns (best: UInt32)
    requires Offers(queued, captured, id)
    ensures Offers(queued, captured, best) && queued[id].priority <= queued[best].priority
    ensures forall other :: other in ids && Offers(queued, captured, other) ==>
      queued[other].priority <= queued[best].priority
    decreases ids
  {
    if ids == {} {
      best := id;
    } else {
      var i :| i in ids;
      best := BestOf(queued, captured, ids - {i}, id);
      if Offers(queued, captured, i) && queued[best].priority < queued[i].priority {
        best := i;
      }
    }
  }

  lemma {:induction false} DeleteIsRun(s: State, c: Client, id: UInt32)
    requires At(s, c, Idle) && s.lock.None? && JobsInv(s)
    ensures var steps := [DeleteBegin(c, id), DeleteEnd(c)];
      Legal(s, steps) &&
      var t := Run(s, steps);
      && Leaves(s, t, s.queued - {id}, t.clientJob, s.inProgress - {id})
      && t.clientJob.Keys == s.clientJob.Keys
      && forall d :: d in s.clientJob ==> t.clientJob[d] == s.clientJob[d] - {id}
  {
    RunTwo(s, DeleteBegin(c, id), DeleteEnd(c));
    var t := Apply(Apply(s, DeleteBegin(c, id)), DeleteEnd(c));
    assert t.phases == s.phases;
    forall d | d in s.clientJob ensures t.clientJob[d] == s.clientJob[d] - {id} {
      assert ClientOk(s, d) && OwnerOk(s, d, id);
    }
  }

  lemma {:induction false} AbortIsRun(s: State, c: Client, id: UInt32)
    requires At(s, c, Idle) && s.lock.None? && JobsInv(s) && id in s.inProgress && s.inProgress[id].client == c
    ensures var steps := [AbortBegin(c, id), AbortEnd(c)];
      Legal(s, steps) &&
      Leaves(s, Run(s, steps), s.queued[id := s.inProgress[id].job],
             s.clientJob[c := Jobs(s.clientJob, c) - {id}], s.inProgress - {id})
  {
    assert IdOk(s, id) && ClientOk(s, c) && OwnerOk(s, c, id);
    RunTwo(s, AbortBegin(c, id), AbortEnd(c));
    assert Apply(Apply(s, AbortBegin(c, id)), AbortEnd(c)).phases == s.phases;
  }

  /** A Pop that was waiting ends the same way. */
  lemma {:induction false} WokenGetIsRun(s: State, c: Client, id: UInt32)
    requires Enabled(s, Wake(c, Some(id))) && c in s.clientJob && s.lock.None?
    ensures var steps, j := [Wake(c, Some(id)), Record(c)], s.queued[id];
      Legal(s, steps) &&
      var t := Run(s, steps);
      && t.queued == s.queued - {id} && t.clientJob == s.clientJob[c := s.clientJob[c] + {j.id}]
      && t.inProgress == s.inProgress[j.id := JobClient(j, c)] && t.phases == s.phases[c := Idle] && t.lock.None?
  {
    RunTwo(s, Wake(c, Some(id)), Record(c));
    assert Apply(Apply(s, Wake(c, Some(id))), Record(c)).phases == s.phases[c := Idle];
  }

  /** A disconnect of `c` from state `s` that has given back the jobs in `done`. */
  ghost predicate Leaving(s: State, c: Client, done: set<UInt32>, t: State) {
    && t.phases == s.phases[c := Phase.Leaving(Jobs(s.clientJob, c), done, None)] && t.lock == Some(c)
    && t.clientJob == s.clientJob && Halfway(s.queued, s.inProgress, done, t.queued, t.inProgress)
  }

  /** One turn of its loop. */
  lemma {:induction false} LeavingTurn(s: State, c: Client, done: set<UInt32>, t: State, id: UInt32)
    requires Leaving(s, c, done, t) && c in s.phases && id in Jobs(s.clientJob, c) - done
    requires id in s.inProgress && s.inProgress[id].job.id == id && id !in s.queued
    ensures var a, b := LeavePush(c, id), LeaveForget(c);
      Enabled(t, a) && Enabled(Apply(t, a), b) && Leaving(s, c, done + {id}, Apply(Apply(t, a), b))
  {
    HalfwayStep(s.queued, s.inProgress, done, t.queued, t.inProgress, id);
    var t' := Apply(Apply(t, LeavePush(c, id)), LeaveForget(c));
    assert t'.phases == s.phases[c := Phase.Leaving(Jobs(s.clientJob, c), done + {id}, None)];
  }

  lemma AllDone(all: set<UInt32>, done: set<UInt32>)
    requires all - done == {} && done <= all
    ensures done == all
  {
    forall id | id in all ensures id in done {
      assert id !in all - done;
    }
  }

  lemma {:induction false} LeavingLoop(s: State, c: Client, done: set<UInt32>, t: State) returns (steps: seq<Step>)
    requires JobsInv(s) && At(s, c, Idle) && s.lock.None? && Leaving(s, c, done, t) && done <= Jobs(s.clientJob, c)
    ensures Legal(t, steps) && Leaving(s, c, Jobs(s.clientJob, c), Run(t, steps))
    decreases Jobs(s.clientJob, c) - done
  {
    var rest := Jobs(s.clientJob, c) - done;
    if rest == {} {
      AllDone(Jobs(s.clientJob, c), done);
      steps := [];
    } else {
      var id :| id in rest;
      assert ClientOk(s, c) && OwnerOk(s, c, id) && IdOk(s, id);
      LeavingTurn(s, c, done, t, id);
      var a, b := LeavePush(c, id), LeaveForget(c);
      RunTwo(t, a, b);
      var more := LeavingLoop(s, c, done + {id}, Apply(Apply(t, a), b));
      RunConcat(t, [a, b], more);
      steps := [a, b] + more;
    }
  }

  /** An uninterrupted disconnect leaves what the object's method leaves. */
  lemma {:induction false} DisconnectIsRun(s: State, c: Client) returns (steps: seq<Step>)
    requires At(s, c, Idle) && s.lock.None? && JobsInv(s)
    ensures Legal(s, steps)
    ensures var t, owned := Run(s, steps), OwnedBy(s.inProgress, c);
      && t.queued == s.queued + Given(s.inProgress, owned) && t.inProgress == s.inProgress - owned
      && t.clientJob == s.clientJob - {c} && t.phases == s.phases - {c} && t.lock.None?
  {
    var s1 := Apply(s, LeaveBegin(c));
    NothingDone(s, c, s1);
    var loop := LeavingLoop(s, c, {}, s1);
    OwnedAreJobs(s, c);
    RunOne(s, LeaveBegin(c));
    RunConcat(s, [LeaveBegin(c)], loop);
    steps := [LeaveBegin(c)] + loop;
    var t := Run(s, steps);
    RunSnoc(s, steps, LeaveEnd(c), Apply(t, LeaveEnd(c)));
    steps := steps + [LeaveEnd(c)];
    assert Apply(t, LeaveEnd(c)).phases == s.phases - {c};
  }

  lemma {:induction false} NothingDone(s: State, c: Client, s1: State)
    requires At(s, c, Idle) && s.lock.None? && s1 == Apply(s, LeaveBegin(c))
    ensures Leaving(s, c, {}, s1)
  {
    HalfwayEnds(s.queued, s.inProgress, {});
    var none: set<UInt32> := {};
    assert none - none == none;
  }

  lemma {:induction false} OwnedAreJobs(s: State, c: Client)
    requires At(s, c, Idle) && JobsInv(s)
    ensures Jobs(s.clientJob, c) == OwnedBy(s.inProgress, c)
  {
    assert ClientOk(s, c);
    forall id ensures id in Jobs(s.clientJob, c) <==> id in OwnedBy(s.inProgress, c) {
      assert OwnerOk(s, c, id);
    }
  }
}
