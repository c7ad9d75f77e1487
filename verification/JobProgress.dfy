/**
 * The job centre is never stuck: from every reachable state some continuation frees the handler lock and
 * brings every client that stays to rest, with no further put.
 */
module JobProgress {
  import opened Common
  import opened JobHeap
  import opened JobQueues
  import opened JobCentre

  ghost function Busy(s: State): set<Client> {
    set c | c in s.phases && !s.phases[c].Idle?
  }

  /** A continuation without puts. */
  ghost predicate Leads(s: State, steps: seq<Step>, t: State) {
    Legal(s, steps) && Run(s, steps) == t && t.puts == s.puts
  }

  lemma {:induction false} Stay(s: State)
    ensures Leads(s, [], s)
  {
  }

  lemma {:induction false} Go(s: State, step: Step, rest: seq<Step>, t: State)
    requires Enabled(s, step) && !step.PutAlloc? && Leads(Apply(s, step), rest, t)
    ensures Leads(s, [step] + rest, t)
  {
    RunOne(s, step);
    RunConcat(s, [step], rest);
    OthersPutNothing(s, step);
  }

  lemma {:induction false} GoOn(s: State, a: seq<Step>, t: State, b: seq<Step>, u: State)
    requires Leads(s, a, t) && Leads(t, b, u)
    ensures Leads(s, a + b, u)
  {
    RunConcat(s, a, b);
  }

  // ---------- the handler lock ----------

  /** A disconnect that is under way can be completed. */
  lemma {:induction false} CompleteLeaving(s: State, c: Client) returns (steps: seq<Step>, t: State)
    requires JobsInv(s) && c in s.phases && s.phases[c].Leaving?
    ensures Leads(s, steps, t) && JobsInv(t) && t.lock.None? && t.phases == s.phases - {c}
    decreases s.phases[c].owned - s.phases[c].visited, s.phases[c].doomed.Some?
  {
    var step := LeavingStepOf(s, c);
    StepPuts(s, step);
    StepKeepsJobs(s, step);
    var next := Apply(s, step);
    if step.LeaveEnd? {
      Stay(next);
      steps, t := [], next;
    } else {
      steps, t := CompleteLeaving(next, c);
    }
    Go(s, step, steps, t);
    steps := [step] + steps;
  }

  /** Its next step, which it can take whatever the others do. */
  lemma {:induction false} LeavingStepOf(s: State, c: Client) returns (step: Step)
    requires JobsInv(s) && c in s.phases && s.phases[c].Leaving?
    ensures Enabled(s, step) && (step == LeaveEnd(c) || step == LeaveForget(c) || step.LeavePush?)
    ensures step.LeaveEnd? ==> Apply(s, step).lock.None? && Apply(s, step).phases == s.phases - {c}
    ensures !step.LeaveEnd? ==>
      var t := Apply(s, step);
      && c in t.phases && t.phases[c].Leaving? && t.phases - {c} == s.phases - {c}
      && t.phases[c].owned == s.phases[c].owned
      && (s.phases[c].visited < t.phases[c].visited <= t.phases[c].owned ||
          (t.phases[c].visited == s.phases[c].visited && s.phases[c].doomed.Some? && t.phases[c].doomed.None?))
  {
    assert ClientOk(s, c);
    var Leaving(owned, visited, doomed) := s.phases[c];
    if doomed.Some? {
      step := LeaveForget(c);
    } else if owned <= visited {
      step := LeaveEnd(c);
    } else {
      var id :| id in owned && id !in visited;
      step := LeavePush(c, id);
    }
    assert !step.LeaveEnd? ==> Apply(s, step).phases - {c} == s.phases - {c};
  }

  lemma {:induction false} StepPuts(s: State, step: Step)
    requires JobsInv(s) && Enabled(s, step) && !step.PutAlloc?
    ensures Apply(s, step).puts == s.puts < 0x1_0000_0000
  {
    OthersPutNothing(s, step);
  }

  /** Whoever has the lock can be brought to give it back. */
  lemma {:induction false} FreeLock(s: State) returns (steps: seq<Step>, t: State)
    requires JobsInv(s)
    ensures Leads(s, steps, t) && JobsInv(t) && t.lock.None? && Busy(t) <= Busy(s)
  {
    if s.lock.None? {
      Stay(s);
      steps, t := [], s;
    } else {
      var c := s.lock.value;
      assert ClientOk(s, c);
      if s.phases[c].Leaving? {
        steps, t := CompleteLeaving(s, c);
      } else {
        var step := if s.phases[c].Deleting? then DeleteEnd(c) else AbortEnd(c);
        StepPuts(s, step);
        StepKeepsJobs(s, step);
        t := Apply(s, step);
        Stay(t);
        Go(s, step, [], t);
        steps := [step] + [];
      }
    }
  }

  // ---------- the clients ----------

  /** With the lock free, a busy client can go to rest by itself. */
  lemma {:induction false} RestOne(s: State, c: Client) returns (step: Step)
    requires JobsInv(s) && s.lock.None? && c in Busy(s)
    ensures Enabled(s, step) && !step.PutAlloc?
    ensures Apply(s, step).lock.None? && Busy(Apply(s, step)) == Busy(s) - {c}
  {
    assert ClientOk(s, c);
    step := match s.phases[c]
      case Putting(_) => PutPush(c)
      case Holding(_) => Record(c)
      case _ => Cancel(c);
    var t := Apply(s, step);
    assert t.phases == s.phases[c := Idle];
  }

  lemma {:induction false} RestAll(s: State) returns (steps: seq<Step>, t: State)
    requires JobsInv(s) && s.lock.None?
    ensures Leads(s, steps, t) && t.lock.None? && Busy(t) == {}
    decreases Busy(s)
  {
    if Busy(s) == {} {
      Stay(s);
      steps, t := [], s;
    } else {
      var c :| c in Busy(s);
      var step := RestOne(s, c);
      StepPuts(s, step);
      StepKeepsJobs(s, step);
      steps, t := RestAll(Apply(s, step));
      Go(s, step, steps, t);
      steps := [step] + steps;
    }
  }

  /** From every reachable state the job centre can come to rest: the lock free and no client busy. */
  lemma {:induction false} CanRest(before: seq<Step>)
    requires Legal(INIT, before) && Run(INIT, before).puts < 0x1_0000_0000
    ensures exists steps, t :: Leads(Run(INIT, before), steps, t) && t.lock.None? && Busy(t) == {}
  {
    RunKeeps(INIT, before);
    var s := Run(INIT, before);
    var a, t := FreeLock(s);
    var b, u := RestAll(t);
    GoOn(s, a, t, b, u);
  }
}
