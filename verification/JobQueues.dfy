/**
 * The named priority queues of the job centre, with the locator map from JobID to node and the
 * notifier channels of waiting Pops.  The whole structure stands for a plain map from JobID to Job.
 */
module JobQueues {
  import opened Common
  import opened JobHeap

  datatype Locator = Locator(queue: string, node: Node)

  // ---------- queues and locators, on values ----------

  type Contents = map<string, seq<Node>>
  type Locators = map<UInt32, Locator>

  /** The node belongs to this queue and the locator of its JobID points at it. */
  ghost predicate Located(locs: Locators, name: string, n: Node) {
    n.job.queue == name && n.job.id in locs && locs[n.job.id] == Locator(name, n)
  }

  ghost predicate AllLocated(locs: Locators, name: string, items: seq<Node>) {
    forall n :: n in items ==> Located(locs, name, n)
  }

  /** The locator names an existing queue and a node of it with the right JobID. */
  ghost predicate Locates(contents: Contents, id: UInt32, l: Locator) {
    l.queue in contents && l.node in contents[l.queue] && l.node.job.id == id
  }

  /** The locators are in bijection with the nodes held across all queues. */
  ghost predicate Linked(contents: Contents, locs: Locators) {
    && (forall name :: name in contents ==> AllLocated(locs, name, contents[name]))
    && (forall id :: id in locs ==> Locates(contents, id, locs[id]))
  }

  /** The jobs held, by JobID. */
  function JobsOf(locs: Locators): map<UInt32, Job> {
    map id | id in locs :: locs[id].node.job
  }

  lemma LinkNewQueue(contents: Contents, locs: Locators, name: string)
    requires Linked(contents, locs) && name !in contents
    ensures Linked(contents[name := []], locs)
  {
    forall id | id in locs ensures Locates(contents[name := []], id, locs[id]) {
      assert Locates(contents, id, locs[id]);
    }
  }

  lemma InAfterInsert(before: seq<Node>, after: seq<Node>, x: Node, n: Node)
    requires multiset(after) == multiset(before) + multiset{x}
    ensures n in after <==> n in before || n == x
  {
    assert n in after <==> n in multiset(after);
    assert n in before <==> n in multiset(before);
  }

  lemma LinkInsert(contents: Contents, locs: Locators, x: Node, items: seq<Node>)
    requires Linked(contents, locs) && x.job.queue in contents && x.job.id !in locs
    requires multiset(items) == multiset(contents[x.job.queue]) + multiset{x}
    ensures Linked(contents[x.job.queue := items], locs[x.job.id := Locator(x.job.queue, x)])
    ensures JobsOf(locs[x.job.id := Locator(x.job.queue, x)]) == JobsOf(locs)[x.job.id := x.job]
  {
    var name := x.job.queue;
    var contents', locs' := contents[name := items], locs[x.job.id := Locator(name, x)];
    forall q, n | q in contents' && n in contents'[q] ensures Located(locs', q, n) {
      if q == name {
        InAfterInsert(contents[name], items, x, n);
      }
      assert n != x ==> Located(locs, q, n);
    }
    forall id | id in locs' ensures Locates(contents', id, locs'[id]) {
      InAfterInsert(contents[name], items, x, locs'[id].node);
      assert id in locs ==> Locates(contents, id, locs[id]);
    }
  }

  /** Pushing a JobID that is still held breaks the bijection: the older job loses its locator. */
  lemma DuplicateUnlinks(contents: Contents, locs: Locators, x: Node, items: seq<Node>)
    requires Linked(contents, locs) && x.job.queue in contents && x.job.id in locs && locs[x.job.id].node != x
    requires multiset(items) == multiset(contents[x.job.queue]) + multiset{x}
    ensures !Linked(contents[x.job.queue := items], locs[x.job.id := Locator(x.job.queue, x)])
  {
    var l := locs[x.job.id];
    assert Locates(contents, x.job.id, l);
    InAfterInsert(contents[x.job.queue], items, x, l.node);
    var contents', locs' := contents[x.job.queue := items], locs[x.job.id := Locator(x.job.queue, x)];
    assert l.node in contents'[l.queue] && !Located(locs', l.queue, l.node);
  }

  /** A push keeps the bijection exactly when the JobID is not held already. */
  lemma LinkPush(contents: Contents, locs: Locators, x: Node, items: seq<Node>)
    requires Linked(contents, locs) && x.job.queue in contents && x !in contents[x.job.queue]
    requires multiset(items) == multiset(contents[x.job.queue]) + multiset{x}
    ensures var locs' := locs[x.job.id := Locator(x.job.queue, x)];
      && (Linked(contents[x.job.queue := items], locs') <==> x.job.id !in locs)
      && (x.job.id !in locs ==> JobsOf(locs') == JobsOf(locs)[x.job.id := x.job])
  {
    if x.job.id !in locs {
      LinkInsert(contents, locs, x, items);
    } else {
      var l := locs[x.job.id];
      assert Locates(contents, x.job.id, l);
      assert Located(locs, l.queue, l.node);
      DuplicateUnlinks(contents, locs, x, items);
    }
  }

  lemma InAfterRemove(before: seq<Node>, after: seq<Node>, x: Node, n: Node)
    requires multiset(after) == multiset(before) - multiset{x} && x in before
    ensures n in after ==> n in before
    ensures n in before && n != x ==> n in after
  {
    assert n in after <==> n in multiset(after);
    assert n in before <==> n in multiset(before);
  }

  lemma LinkRemove(contents: Contents, locs: Locators, x: Node, items: seq<Node>)
    requires Linked(contents, locs) && x.job.queue in contents && x in contents[x.job.queue]
    requires multiset(items) == multiset(contents[x.job.queue]) - multiset{x} && x !in items
    ensures x.job.id in locs
    ensures Linked(contents[x.job.queue := items], locs - {x.job.id})
    ensures JobsOf(locs - {x.job.id}) == JobsOf(locs) - {x.job.id}
  {
    var name := x.job.queue;
    var contents', locs' := contents[name := items], locs - {x.job.id};
    assert Located(locs, name, x);
    forall q, n | q in contents' && n in contents'[q] ensures Located(locs', q, n) {
      if q == name {
        InAfterRemove(contents[name], items, x, n);
      }
      assert Located(locs, q, n);
    }
    forall id | id in locs' ensures Locates(contents', id, locs'[id]) {
      assert Locates(contents, id, locs[id]);
      InAfterRemove(contents[name], items, x, locs[id].node);
    }
  }

  // ---------- what a Pop looks for ----------

  /** The job is in a captured queue and has a priority above 0, the only ones Pop considers. */
  predicate Offers(queued: map<UInt32, Job>, captured: set<string>, id: UInt32) {
    id in queued && queued[id].queue in captured && queued[id].priority > 0
  }

  ghost predicate NoneOffered(queued: map<UInt32, Job>, captured: set<string>) {
    forall id :: !Offers(queued, captured, id)
  }

  /** An offered job that no other offered job outranks. */
  ghost predicate IsBest(queued: map<UInt32, Job>, captured: set<string>, id: UInt32) {
    && Offers(queued, captured, id)
    && forall other :: Offers(queued, captured, other) ==> queued[other].priority <= queued[id].priority
  }

  // ---------- the structure ----------

  /** Every queue is a heap of nodes tagged with its name. */
  ghost predicate WellKept(held: Contents, repr: set<object>) {
    forall name :: name in held ==> Kept(name, held[name], repr)
  }

  ghost predicate Kept(name: string, items: seq<Node>, repr: set<object>) {
    && HeapOrdered(items, |items|)
    && forall i :: 0 <= i < |items| ==> items[i] in repr && items[i].job.queue == name
  }

  class Queues {
    var jobQueues: map<string, JobQueue>
    var jobLocators: Locators
    var notifiers: seq<nat>        // open channels of waiting Pops
    var closed: set<nat>           // channels closed so far
    var made: nat                  // channels are numbered as they are made
    ghost var held: Contents       // the nodes of each queue
    ghost var repr: set<object>    // the queues and their nodes

    /** Every queue object holds the nodes `held` says, and every node knows its slot. */
    ghost predicate InPlace()
      reads this`jobQueues, this`held, this`repr, repr
    {
      && this !in repr && held.Keys == jobQueues.Keys
      && (forall name :: name in jobQueues ==>
            jobQueues[name] in repr && jobQueues[name].name == name && jobQueues[name].items == held[name])
      && (forall name, i :: name in held && 0 <= i < |held[name]| ==>
            held[name][i] in repr && held[name][i].index == i)
    }

    /** Every queue is a max-heap whose nodes know their slot. */
    ghost predicate Heaps()
      reads this`jobQueues, this`held, this`repr, repr
    {
      InPlace() && WellKept(held, repr)
    }

    /** Besides, locators and nodes are in bijection. */
    ghost predicate Sound()
      reads this`jobQueues, this`held, this`repr, this`jobLocators, repr
    {
      Heaps() && Linked(held, jobLocators)
    }

    /** The registered notifiers are distinct and open; closing a closed channel would stop the program. */
    ghost predicate NotifiersOk()
      reads this`notifiers, this`closed, this`made
    {
      && (forall c :: c in notifiers ==> c < made && c !in closed)
      && (forall c :: c in closed ==> c < made)
      && (forall i, j :: 0 <= i < j < |notifiers| ==> notifiers[i] != notifiers[j])
    }

    ghost predicate Valid()
      reads this, repr
    {
      Sound() && NotifiersOk()
    }

    function Model(): map<UInt32, Job>
      reads this`jobLocators
    {
      JobsOf(jobLocators)
    }

    constructor ()
      ensures Valid() && Model() == map[] && jobQueues == map[] && notifiers == [] && fresh(repr)
    {
      jobQueues, jobLocators, notifiers, closed, made := map[], map[], [], {}, 0;
      held, repr := map[], {};
    }

    /** The queue of that name, created empty when missing. */
    method EnsureQueue(name: string)
      requires Sound()
      modifies this`jobQueues, this`held, this`repr
      ensures Sound() && fresh(repr - old(repr)) && old(repr) <= repr
      ensures jobQueues.Keys == old(jobQueues.Keys) + {name}
      ensures forall n :: n in old(jobQueues) ==> jobQueues[n] == old(jobQueues[n])
    {
      if name !in jobQueues {
        CreateQueue(name);
        LinkNewQueue(old(held), jobLocators, name);
      }
    }

    method CreateQueue(name: string)
      requires Heaps() && name !in jobQueues
      modifies this`jobQueues, this`held, this`repr
      ensures Heaps() && fresh(repr - old(repr)) && old(repr) <= repr
      ensures name in jobQueues && jobQueues == old(jobQueues)[name := jobQueues[name]] && held == old(held)[name := []]
    {
      var q := new JobQueue(name);
      jobQueues := jobQueues[name := q];
      held := held[name := []];
      repr := repr + {q};
    }

    /** Pushes a node onto its heap; the other queues stay as they are. */
    method PushInto(x: Node)
      requires Heaps() && x !in repr && x.job.queue in jobQueues
      modifies this`held, this`repr, repr, x
      ensures Heaps() && repr == old(repr) + {x}
      ensures x.job.queue in old(held) && x !in old(held)[x.job.queue]
      ensures held == old(held)[x.job.queue := held[x.job.queue]]
      ensures multiset(held[x.job.queue]) == multiset(old(held)[x.job.queue]) + multiset{x}
    {
      var name := x.job.queue;
      var q := jobQueues[name];
      assert Kept(name, held[name], repr);
      q.HeapPush(x);
      repr := repr + {x};
      forall i | 0 <= i < |q.items| ensures q.items[i] in repr && q.items[i].job.queue == name {
        InAfterInsert(held[name], q.items, x, q.items[i]);
      }
      forall n, i | n in held && n != name && 0 <= i < |held[n]| ensures held[n][i].index == i {
        assert Kept(n, held[n], old(repr));
      }
      held := held[name := q.items];
    }

    /** Points the locator of a JobID at a node that has just been put into its queue. */
    method Locate(x: Node, ghost before: Contents)
      requires Heaps() && Linked(before, jobLocators) && x.job.queue in before && x !in before[x.job.queue]
      requires x.job.queue in held
      requires held == before[x.job.queue := held[x.job.queue]]
      requires multiset(held[x.job.queue]) == multiset(before[x.job.queue]) + multiset{x}
      modifies this`jobLocators
      ensures Heaps()
      ensures Linked(held, jobLocators) <==> x.job.id !in old(jobLocators)
      ensures x.job.id !in old(jobLocators) ==> Model() == old(Model())[x.job.id := x.job]
    {
      LinkPush(before, jobLocators, x, held[x.job.queue]);
      jobLocators := jobLocators[x.job.id := Locator(x.job.queue, x)];
      assert Heaps();
    }

    /** Puts a job into its queue and points the locator of its JobID at the new node. */
    method Insert(j: Job)
      requires Sound() && j.queue in jobQueues
      modifies this`held, this`jobLocators, this`repr, repr
      ensures fresh(repr - old(repr)) && Heaps()
      ensures Linked(held, jobLocators) <==> j.id !in old(jobLocators)
      ensures j.id !in old(jobLocators) ==> Model() == old(Model())[j.id := j]
    {
      var x := new Node(j);
      PushInto(x);
      Locate(x, old(held));
    }

    method Close(c: nat)
      requires c !in closed
      modifies this`closed
      ensures closed == old(closed) + {c}
    {
      closed := closed + {c};
    }

    /** Closes and forgets every registered notifier; none is closed twice. */
    method NotifyAll()
      requires NotifiersOk()
      modifies this`notifiers, this`closed
      ensures notifiers == [] && NotifiersOk()
      ensures closed == old(closed) + set c | c in old(notifiers)
    {
      for k := 0 to |notifiers|
        invariant notifiers == old(notifiers) && closed == old(closed) + set c | c in notifiers[..k]
      {
        assert notifiers[..k + 1] == notifiers[..k] + [notifiers[k]];
        Close(notifiers[k]);
      }
      assert notifiers[..|notifiers|] == notifiers;
      notifiers := [];
    }

    /** Adds a job to its queue, which is created when missing. */
    method Add(j: Job)
      requires Sound()
      modifies this`jobQueues, this`held, this`jobLocators, this`repr, repr
      ensures fresh(repr - old(repr)) && Heaps()
      ensures Linked(held, jobLocators) <==> j.id !in old(jobLocators)
      ensures j.id !in old(jobLocators) ==> Model() == old(Model())[j.id := j]
      ensures jobQueues.Keys == old(jobQueues.Keys) + {j.queue}
      ensures forall n :: n in old(jobQueues) ==> jobQueues[n] == old(jobQueues[n])
    {
      EnsureQueue(j.queue);
      Insert(j);
    }

    /** Adds a job.  The structure stays a map from JobID to Job exactly when the JobID is not held yet. */
    method Push(j: Job)
      requires Valid()
      modifies this, repr
      ensures fresh(repr - old(repr)) && Heaps() && NotifiersOk()
      ensures Linked(held, jobLocators) <==> j.id !in old(Model())
      ensures j.id !in old(Model()) ==> Model() == old(Model())[j.id := j]
      ensures jobQueues.Keys == old(jobQueues.Keys) + {j.queue}
      ensures forall n :: n in old(jobQueues) ==> jobQueues[n] == old(jobQueues[n])
      ensures notifiers == [] && closed == old(closed) + set c | c in old(notifiers)
    {
      Add(j);
      assert this !in repr;
      NotifyAll();
      assert Heaps();
    }

    /** Takes the node in slot i out of a heap; the other queues stay as they are. */
    method TakeOut(name: string, i: nat) returns (x: Node)
      requires Heaps() && name in jobQueues && i < |held[name]|
      modifies this`held, repr
      ensures Heaps() && x == old(held)[name][i] && name in held && x !in held[name]
      ensures held == old(held)[name := held[name]]
      ensures multiset(held[name]) == multiset(old(held)[name]) - multiset{x}
    {
      var q := jobQueues[name];
      assert Kept(name, held[name], repr);
      x := q.HeapRemove(i);
      forall k | 0 <= k < |q.items| ensures q.items[k] in repr && q.items[k].job.queue == name {
        InAfterRemove(held[name], q.items, x, q.items[k]);
      }
      forall n, k | n in held && n != name && 0 <= k < |held[n]| ensures held[n][k].index == k {
        assert Kept(n, held[n], repr);
      }
      held := held[name := q.items];
    }

    /** Takes a job of the highest priority out of a heap; the other queues stay as they are. */
    method TakeRoot(name: string) returns (x: Node)
      requires Heaps() && name in jobQueues && held[name] != []
      modifies this`held, repr
      ensures Heaps() && x == old(held)[name][0] && name in held && x !in held[name]
      ensures held == old(held)[name := held[name]]
      ensures multiset(held[name]) == multiset(old(held)[name]) - multiset{x}
    {
      var q := jobQueues[name];
      assert Kept(name, held[name], repr);
      x := q.HeapPop();
      forall k | 0 <= k < |q.items| ensures q.items[k] in repr && q.items[k].job.queue == name {
        InAfterRemove(held[name], q.items, x, q.items[k]);
      }
      forall n, k | n in held && n != name && 0 <= k < |held[n]| ensures held[n][k].index == k {
        assert Kept(n, held[n], repr);
      }
      held := held[name := q.items];
    }

    /** Forgets the locator of a node that has just left its queue. */
    method Unlink(x: Node, ghost before: Contents)
      requires Heaps() && Linked(before, jobLocators)
      requires x.job.queue in before && x in before[x.job.queue] && x.job.queue in held && x !in held[x.job.queue]
      requires held == before[x.job.queue := held[x.job.queue]]
      requires multiset(held[x.job.queue]) == multiset(before[x.job.queue]) - multiset{x}
      modifies this`jobLocators
      ensures Sound() && x.job.id in old(Model()) && old(Model())[x.job.id] == x.job
      ensures Model() == old(Model()) - {x.job.id}
    {
      assert Located(jobLocators, x.job.queue, x);
      LinkRemove(before, jobLocators, x, held[x.job.queue]);
      jobLocators := jobLocators - {x.job.id};
      assert Heaps();
    }

    /** Takes a held node out of the structure, by the slot it knows. */
    method RemoveNode(x: Node)
      requires Sound() && x.job.queue in jobQueues && x in held[x.job.queue]
      modifies this`held, this`jobLocators, repr
      ensures Sound() && x.job.id in old(Model()) && Model() == old(Model()) - {x.job.id}
    {
      assert Indexed(held[x.job.queue]);
      SlotOf(held[x.job.queue], x);
      var y := TakeOut(x.job.queue, x.index);
      Unlink(y, old(held));
    }

    /** Deletes a queued job by JobID; reports whether it was there. */
    method Remove(jobID: UInt32) returns (found: bool)
      requires Valid()
      modifies this`held, this`jobLocators, repr
      ensures Valid() && found == (jobID in old(Model())) && Model() == old(Model()) - {jobID}
    {
      if jobID !in jobLocators {
        assert Model() - {jobID} == Model();
        return false;
      }
      var l := jobLocators[jobID];
      assert Locates(held, jobID, l) && Located(jobLocators, l.queue, l.node);
      RemoveNode(l.node);
      return true;
    }

    /** The queues a Pop will look at: those of its names that exist at entry. */
    method Capture(names: seq<string>) returns (captured: map<string, JobQueue>)
      ensures captured.Keys == (set n | n in names) * jobQueues.Keys
      ensures forall n :: n in captured ==> captured[n] == jobQueues[n]
    {
      captured := map[];
      for i := 0 to |names|
        invariant captured.Keys == (set n | n in names[..i]) * jobQueues.Keys
        invariant forall n :: n in captured ==> captured[n] == jobQueues[n]
      {
        assert names[..i + 1] == names[..i] + [names[i]];
        if names[i] in jobQueues {
          captured := captured[names[i] := jobQueues[names[i]]];
        }
      }
      assert names[..|names|] == names;
    }

    /** The captured queue whose root has the highest priority above 0, if any. */
    method Highest(captured: map<string, JobQueue>) returns (best: Option<string>)
      requires Heaps() && forall n :: n in captured ==> n in jobQueues && captured[n] == jobQueues[n]
      ensures best.None? ==> forall n :: n in captured && held[n] != [] ==> held[n][0].job.priority == 0
      ensures best.Some? ==> best.value in captured && held[best.value] != [] && held[best.value][0].job.priority > 0
      ensures best.Some? ==> forall n :: n in captured && held[n] != [] ==>
                held[n][0].job.priority <= held[best.value][0].job.priority
    {
      best := None;
      var highest := 0;
      var rest := captured.Keys;
      while rest != {}
        invariant rest <= captured.Keys
        invariant best.None? ==> highest == 0
        invariant best.Some? ==> best.value in captured && held[best.value] != []
        invariant best.Some? ==> held[best.value][0].job.priority == highest > 0
        invariant forall n :: n in captured && n !in rest && held[n] != [] ==> held[n][0].job.priority <= highest
        decreases |rest|
      {
        var n :| n in rest;
        rest := rest - {n};
        var q := captured[n];
        if |q.items| == 0 {
          continue;
        }
        var priority := q.items[0].job.priority;
        if priority > highest {
          best, highest := Some(n), priority;
        }
      }
    }

    /** A held job sits in its queue, below the root. */
    lemma BelowRoot(id: UInt32)
      requires Sound() && id in Model()
      ensures var j := Model()[id];
        j.queue in jobQueues && held[j.queue] != [] && j.priority <= held[j.queue][0].job.priority
    {
      var l := jobLocators[id];
      assert Locates(held, id, l) && Located(jobLocators, l.queue, l.node);
      var items := held[l.queue];
      assert Kept(l.queue, items, repr);
      var k :| 0 <= k < |items| && items[k] == l.node;
      RootIsMax(items, k);
    }

    /** The choice of Pop, in terms of the jobs held. */
    method Select(captured: map<string, JobQueue>) returns (best: Option<string>)
      requires Sound() && forall n :: n in captured ==> n in jobQueues && captured[n] == jobQueues[n]
      ensures best.None? <==> NoneOffered(Model(), captured.Keys)
      ensures best.Some? ==> best.value in jobQueues && held[best.value] != []
      ensures best.Some? ==>
        var j := held[best.value][0].job;
        IsBest(Model(), captured.Keys, j.id) && Model()[j.id] == j
    {
      best := Highest(captured);
      forall id | id in Model() ensures
          var j := Model()[id];
          j.queue in jobQueues && held[j.queue] != [] && j.priority <= held[j.queue][0].job.priority
      {
        BelowRoot(id);
      }
      if best.Some? {
        var x := held[best.value][0];
        assert x in held[best.value];
        assert Located(jobLocators, best.value, x);
        assert Offers(Model(), captured.Keys, x.job.id);
      }
    }

    /** Takes the root of a queue out of the structure. */
    method RemoveRoot(name: string) returns (j: Job)
      requires Sound() && name in jobQueues && held[name] != []
      modifies this`held, this`jobLocators, repr
      ensures Sound() && j == old(held[name][0].job) && Model() == old(Model()) - {j.id}
    {
      assert Kept(name, held[name], repr);
      var x := TakeRoot(name);
      Unlink(x, old(held));
      j := x.job;
    }

    /**
     * One scan of Pop under the lock.  It takes a job of the highest priority over all jobs in the
     * captured queues, and finds nothing exactly when none of them has a priority above 0.
     */
    method TryPop(captured: map<string, JobQueue>) returns (r: Option<Job>)
      requires Valid() && forall n :: n in captured ==> n in jobQueues && captured[n] == jobQueues[n]
      modifies this`held, this`jobLocators, repr
      ensures Valid()
      ensures r.None? <==> NoneOffered(old(Model()), captured.Keys)
      ensures r.None? ==> Model() == old(Model())
      ensures r.Some? ==> IsBest(old(Model()), captured.Keys, r.value.id) && old(Model())[r.value.id] == r.value
      ensures r.Some? ==> Model() == old(Model()) - {r.value.id}
    {
      var best := Select(captured);
      if best.None? {
        return None;
      }
      var j := RemoveRoot(best.value);
      return Some(j);
    }

    /** A new open notifier, registered for the next Push. */
    method Subscribe() returns (c: nat)
      requires Valid()
      modifies this`notifiers, this`made
      ensures Valid() && c !in closed && c !in old(notifiers) && notifiers == old(notifiers) + [c]
    {
      c := made;
      made := made + 1;
      notifiers := notifiers + [c];
    }
  }
}
