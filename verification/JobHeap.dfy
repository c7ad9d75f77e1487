/**
 * One priority queue of the job centre: a binary max-heap of job nodes that know their own slot.
 * Push, Pop, Less and Swap are the queue's; Up, Down and the Heap methods are the sift loops of
 * Go's container/heap over them.
 */
module JobHeap {
  import opened Common

  datatype Job = Job(queue: string, id: UInt32, data: string, priority: UInt32)

  class Node {
    const job: Job
    var index: int

    constructor (job: Job)
      ensures this.job == job
    {
      this.job := job;
      index := 0;
    }
  }

  function Pri(items: seq<Node>, k: nat): UInt32
    requires k < |items|
  {
    items[k].job.priority
  }

  function Parent(k: nat): nat
    requires k > 0
  {
    (k - 1) / 2
  }

  /** Slot k does not outrank its parent. */
  predicate Ordered(items: seq<Node>, k: nat)
    requires 0 < k < |items|
  {
    Pri(items, Parent(k)) >= Pri(items, k)
  }

  ghost predicate HeapOrdered(items: seq<Node>, n: nat)
    requires n <= |items|
  {
    forall k :: 0 < k < n ==> Ordered(items, k)
  }

  /** The children of slot i do not outrank its parent. */
  ghost predicate Bridged(items: seq<Node>, n: nat, i: nat)
    requires i <= n <= |items|
  {
    i > 0 ==> forall k :: 0 < k < n && Parent(k) == i ==> Pri(items, Parent(i)) >= Pri(items, k)
  }

  ghost predicate Indexed(items: seq<Node>)
    reads items
  {
    forall i :: 0 <= i < |items| ==> items[i].index == i
  }

  /** A node of an indexed queue sits in the slot it names. */
  lemma SlotOf(items: seq<Node>, n: Node)
    requires Indexed(items) && n in items
    ensures 0 <= n.index < |items| && items[n.index] == n
  {
  }

  /** The root of a heap has the highest priority in it. */
  lemma {:induction false} RootIsMax(items: seq<Node>, k: nat)
    requires k < |items| && HeapOrdered(items, |items|)
    ensures Pri(items, 0) >= Pri(items, k)
  {
    if k > 0 {
      assert Ordered(items, k);
      RootIsMax(items, Parent(k));
    }
  }

  ghost predicate Within(a: seq<Node>, b: seq<Node>) {
    forall i :: 0 <= i < |a| ==> a[i] in b
  }

  function Swapped(items: seq<Node>, i: nat, j: nat): seq<Node>
    requires i < |items| && j < |items|
  {
    items[i := items[j]][j := items[i]]
  }

  lemma SwappedSame(items: seq<Node>, i: nat, j: nat)
    requires i < |items| && j < |items|
    ensures multiset(Swapped(items, i, j)) == multiset(items)
  {
  }

  class JobQueue {
    const name: string
    var items: seq<Node>

    ghost predicate Valid()
      reads this, items
    {
      Indexed(items) && HeapOrdered(items, |items|)
    }

    constructor (name: string)
      ensures this.name == name && items == [] && Valid()
    {
      this.name := name;
      items := [];
    }

    predicate Less(i: nat, j: nat)
      requires i < |items| && j < |items|
      reads this
    {
      items[i].job.priority > items[j].job.priority
    }

    method Swap(i: nat, j: nat)
      requires i < |items| && j < |items| && Indexed(items)
      modifies this, items
      ensures items == Swapped(old(items), i, j) && Indexed(items)
      ensures multiset(items) == old(multiset(items)) && Within(items, old(items))
    {
      SwappedSame(items, i, j);
      items := items[i := items[j]][j := items[i]];
      items[i].index := i;
      items[j].index := j;
    }

    method PushItem(x: Node)
      requires Indexed(items) && x !in items
      modifies this, x
      ensures items == old(items) + [x] && Indexed(items)
    {
      x.index := |items|;
      items := items + [x];
    }

    method PopItem() returns (item: Node)
      requires Indexed(items) && items != []
      modifies this, items
      ensures item == old(items[|items| - 1]) && item.index == -1
      ensures items == old(items[..|items| - 1]) && Indexed(items)
    {
      var n := |items|;
      item := items[n - 1];
      assert forall i :: 0 <= i < n - 1 ==> items[i] != item;
      item.index := -1;
      items := items[..n - 1];
    }

    /** Sift up from slot j0, the only one of the first n slots that may outrank its parent. */
    method Up(j0: nat, ghost n: nat)
      requires j0 < n <= |items| && Indexed(items) && AlmostUp(items, n, j0)
      modifies this, items
      ensures Indexed(items) && |items| == old(|items|) && HeapOrdered(items, n)
      ensures multiset(items) == old(multiset(items)) && items[n..] == old(items[n..]) && Within(items, old(items))
    {
      var j := j0;
      while j > 0 && Less(j, Parent(j))
        invariant 0 <= j < n <= |items| == old(|items|) && Indexed(items) && AlmostUp(items, n, j)
        invariant multiset(items) == old(multiset(items)) && items[n..] == old(items[n..])
        invariant Within(items, old(items))
        decreases j
      {
        UpStep(items, n, j);
        var i := Parent(j);
        ghost var before := items;
        Swap(i, j);
        SwappedWithin(before, n, i, j);
        j := i;
      }
    }

    /** The child of slot i to compare with: the right one if it outranks the left one. */
    method HigherChild(i: nat, n: nat) returns (j: nat)
      requires 2 * i + 1 < n <= |items|
      ensures i < j < n && Parent(j) == i
      ensures forall k :: 0 < k < n && Parent(k) == i ==> Pri(items, j) >= Pri(items, k)
    {
      var j1 := 2 * i + 1;
      j := j1;
      if j1 + 1 < n && Less(j1 + 1, j1) {
        j := j1 + 1;
      }
      assert forall k :: 0 < k < n && Parent(k) == i ==> k == j1 || k == j1 + 1;
    }

    /** Sift down from slot i0 among the first n slots; reports whether the node moved. */
    method Down(i0: nat, n: nat) returns (moved: bool)
      requires i0 <= n <= |items| && Indexed(items) && AlmostDown(items, n, i0, i0)
      modifies this, items
      ensures Indexed(items) && |items| == old(|items|)
      ensures multiset(items) == old(multiset(items)) && items[n..] == old(items[n..]) && Within(items, old(items))
      ensures moved ==> HeapOrdered(items, n)
      ensures !moved ==> items == old(items) && Bridged(items, n, i0)
      ensures !moved ==> forall k :: 0 < k < n && k != i0 ==> Ordered(items, k)
    {
      var i := i0;
      while true
        invariant i0 <= i <= n <= |items| == old(|items|) && Indexed(items) && AlmostDown(items, n, i0, i)
        invariant multiset(items) == old(multiset(items)) && items[n..] == old(items[n..])
        invariant Within(items, old(items))
        invariant i == i0 ==> items == old(items)
        decreases n - i
      {
        if 2 * i + 1 >= n {
          break;
        }
        var j := HigherChild(i, n);
        if !Less(j, i) {
          break;
        }
        DownStep(items, n, i0, i, j);
        ghost var before := items;
        Swap(i, j);
        SwappedWithin(before, n, i, j);
        i := j;
      }
      DownStop(items, n, i0, i);
      return i > i0;
    }

    method HeapPush(x: Node)
      requires Valid() && x !in items
      modifies this, items, x
      ensures Valid() && multiset(items) == old(multiset(items)) + multiset{x}
    {
      PushItem(x);
      AppendedLeaf(old(items), x);
      Up(|items| - 1, |items|);
    }

    /** Takes out the root, a node of the highest priority in the queue. */
    method HeapPop() returns (x: Node)
      requires Valid() && items != []
      modifies this, items
      ensures Valid() && x == old(items[0]) && x.index == -1 && x !in items
      ensures multiset(items) == old(multiset(items)) - multiset{x}
      ensures forall y :: y in old(items) ==> x.job.priority >= y.job.priority
    {
      var n := |items| - 1;
      forall k | 0 <= k <= n ensures items[0].job.priority >= items[k].job.priority {
        RootIsMax(items, k);
      }
      LastInto(items, 0);
      Swap(0, n);
      var _ := Down(0, n);
      TailSlot(items, Swapped(old(items), 0, n), n);
      x := PopLast();
    }

    /** Takes out the node in slot i. */
    method HeapRemove(i: nat) returns (x: Node)
      requires Valid() && i < |items|
      modifies this, items
      ensures Valid() && x == old(items[i]) && x.index == -1 && x !in items
      ensures multiset(items) == old(multiset(items)) - multiset{x}
    {
      var n := |items| - 1;
      if n != i {
        LastInto(items, i);
        Swap(i, n);
        var moved := Down(i, n);
        if !moved {
          Up(i, n);
        }
        TailSlot(items, Swapped(old(items), i, n), n);
      }
      x := PopLast();
    }

    /** Drops the last slot, the one outside the heap order. */
    method PopLast() returns (x: Node)
      requires items != [] && Indexed(items) && HeapOrdered(items, |items| - 1)
      modifies this, items
      ensures Valid() && x == old(items[|items| - 1]) && x.index == -1 && x !in items
      ensures multiset(items) == old(multiset(items)) - multiset{x}
    {
      ghost var before := items;
      x := PopItem();
      assert before == items + [x];
      forall k | 0 < k < |items| ensures Ordered(items, k) {
        assert Ordered(before, k);
      }
    }
  }

  lemma TailSlot(items: seq<Node>, before: seq<Node>, n: nat)
    requires n < |items| && n < |before| && items[n..] == before[n..]
    ensures items[n] == before[n]
  {
    assert items[n] == items[n..][0];
  }

  /** Moving the last node into slot i leaves only the order around slot i in doubt. */
  lemma LastInto(items: seq<Node>, i: nat)
    requires i < |items| && HeapOrdered(items, |items|)
    ensures AlmostDown(Swapped(items, i, |items| - 1), |items| - 1, i, i)
  {
    var n := |items| - 1;
    forall k | 0 < k < n && Parent(k) != i && k != i ensures Ordered(Swapped(items, i, n), k) {
      assert Ordered(items, k);
    }
    forall k | 0 < i && 0 < k < n && Parent(k) == i
      ensures Pri(Swapped(items, i, n), Parent(i)) >= Pri(Swapped(items, i, n), k)
    {
      GrandparentOutranks(items, n, i, k);
    }
  }

  lemma GrandparentOutranks(items: seq<Node>, n: nat, i: nat, k: nat)
    requires |items| == n + 1 && HeapOrdered(items, n + 1) && 0 < i && 0 < k < n && Parent(k) == i
    ensures Pri(Swapped(items, i, n), Parent(i)) >= Pri(Swapped(items, i, n), k)
  {
    assert Ordered(items, k);
    assert Ordered(items, i);
  }

  lemma SwappedWithin(items: seq<Node>, n: nat, i: nat, j: nat)
    requires i < n <= |items| && j < n
    ensures Swapped(items, i, j)[n..] == items[n..]
    ensures Within(Swapped(items, i, j), items)
  {
  }

  // ---------- the sift loops, on values ----------

  /** Among the first n slots only slot j may outrank its parent, and its children do not. */
  ghost predicate AlmostUp(items: seq<Node>, n: nat, j: nat)
    requires j < n <= |items|
  {
    && (forall k :: 0 < k < n && k != j ==> Ordered(items, k))
    && Bridged(items, n, j)
  }

  lemma UpStep(items: seq<Node>, n: nat, j: nat)
    requires 0 < j < n <= |items| && AlmostUp(items, n, j) && !Ordered(items, j)
    ensures AlmostUp(Swapped(items, Parent(j), j), n, Parent(j))
  {
    var i := Parent(j);
    var t := Swapped(items, i, j);
    forall k | 0 < k < n && k != i ensures Ordered(t, k) {
      if k != j {
        assert Ordered(items, k);
      }
    }
    if i > 0 {
      assert Ordered(items, i);
      forall k | 0 < k < n && Parent(k) == i ensures Pri(t, Parent(i)) >= Pri(t, k) {
        if k != j {
          assert Ordered(items, k);
        }
      }
    }
  }

  /** Only the children of slot i may outrank it, and slot i0 its parent as long as i has not moved. */
  ghost predicate AlmostDown(items: seq<Node>, n: nat, i0: nat, i: nat)
    requires i <= n <= |items|
  {
    && (forall k :: 0 < k < n && Parent(k) != i && (k == i0 ==> i > i0) ==> Ordered(items, k))
    && Bridged(items, n, i)
  }

  lemma DownStep(items: seq<Node>, n: nat, i0: nat, i: nat, j: nat)
    requires i0 <= i < j < n <= |items| && Parent(j) == i && AlmostDown(items, n, i0, i)
    requires !Ordered(items, j)
    requires forall k :: 0 < k < n && Parent(k) == i ==> Pri(items, j) >= Pri(items, k)
    ensures AlmostDown(Swapped(items, i, j), n, i0, j)
  {
    var t := Swapped(items, i, j);
    forall k | 0 < k < n && Parent(k) != j && (k == i0 ==> j > i0) ensures Ordered(t, k) {
      if k == i {
        assert Pri(items, Parent(i)) >= Pri(items, j);
      } else if Parent(k) != i {
        assert Ordered(items, k);
      }
    }
    forall k | 0 < k < n && Parent(k) == j ensures Pri(t, Parent(j)) >= Pri(t, k) {
      assert Ordered(items, k);
    }
  }

  lemma DownStop(items: seq<Node>, n: nat, i0: nat, i: nat)
    requires i0 <= i <= n <= |items| && AlmostDown(items, n, i0, i)
    requires forall k :: 0 < k < n && Parent(k) == i ==> Ordered(items, k)
    ensures i > i0 ==> HeapOrdered(items, n)
    ensures i == i0 ==> forall k :: 0 < k < n && k != i0 ==> Ordered(items, k)
  {
  }

  lemma AppendedLeaf(items: seq<Node>, x: Node)
    requires HeapOrdered(items, |items|)
    ensures AlmostUp(items + [x], |items| + 1, |items|)
  {
    forall k | 0 < k < |items| ensures Ordered(items + [x], k) {
      assert Ordered(items, k);
    }
  }
}
