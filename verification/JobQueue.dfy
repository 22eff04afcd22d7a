/** The scheduler's priority queue: a binary min-heap on execution ticks kept in a
    growing sequence. Push appends and sifts up while the parent is strictly later;
    pop moves the last element to the root, shrinks and sifts down. */
module JobQueue {
  import opened Ticks

  /** The two member functions the server ever schedules. */
  datatype Task = OnTick | OnDbUpdate

  datatype JobElement<S> = JobElement(mOwner: S, mTask: Task, mExecutionTick: Tick)

  /** JobComparator: `lhs` runs later than `rhs`. */
  predicate RunsLater<S>(lhs: JobElement<S>, rhs: JobElement<S>) {
    lhs.mExecutionTick > rhs.mExecutionTick
  }

  function Parent(i: nat): nat
    requires i > 0
  {
    (i - 1) / 2
  }

  predicate IsChild(i: nat, j: nat) {
    j == 2 * i + 1 || j == 2 * i + 2
  }

  ghost predicate IsHeap<S>(q: seq<JobElement<S>>) {
    forall i: nat, j: nat {:trigger IsChild(i, j)} | i < |q| && j < |q| && IsChild(i, j) :: !RunsLater(q[i], q[j])
  }

  function Swap<S>(q: seq<JobElement<S>>, i: nat, j: nat): (r: seq<JobElement<S>>)
    requires i < |q| && j < |q|
    ensures multiset(r) == multiset(q)
  {
    q[i := q[j]][j := q[i]]
  }

  // ---------- The functions the queue's loops compute ----------

  function SiftUp<S>(q: seq<JobElement<S>>, k: nat): (r: seq<JobElement<S>>)
    requires k < |q|
    ensures |r| == |q| && multiset(r) == multiset(q)
    decreases k
  {
    if k > 0 && RunsLater(q[Parent(k)], q[k]) then SiftUp(Swap(q, Parent(k), k), Parent(k)) else q
  }

  /** The child of `k` that runs first; the left one on a tie. */
  function FirstChild<S>(q: seq<JobElement<S>>, k: nat): nat
    requires 2 * k + 1 < |q|
  {
    if 2 * k + 2 < |q| && RunsLater(q[2 * k + 1], q[2 * k + 2]) then 2 * k + 2 else 2 * k + 1
  }

  function SiftDown<S>(q: seq<JobElement<S>>, k: nat): (r: seq<JobElement<S>>)
    requires k < |q|
    ensures |r| == |q| && multiset(r) == multiset(q)
    decreases |q| - k
  {
    if 2 * k + 1 < |q| && RunsLater(q[k], q[FirstChild(q, k)]) then
      SiftDown(Swap(q, k, FirstChild(q, k)), FirstChild(q, k))
    else
      q
  }

  function Pushed<S>(q: seq<JobElement<S>>, x: JobElement<S>): (r: seq<JobElement<S>>)
    ensures |r| == |q| + 1
  {
    SiftUp(q + [x], |q|)
  }

  function Popped<S>(q: seq<JobElement<S>>): (r: seq<JobElement<S>>)
    requires q != []
    ensures |r| == |q| - 1
  {
    var shrunk := q[0 := q[|q| - 1]][..|q| - 1];
    if shrunk == [] then [] else SiftDown(shrunk, 0)
  }

  // ---------- Heap order ----------

  /** Heap order everywhere but between `k` and its parent. */
  ghost predicate IsHeapAbove<S>(q: seq<JobElement<S>>, k: nat) {
    && (forall i: nat, j: nat {:trigger IsChild(i, j)} | i < |q| && j < |q| && IsChild(i, j) && j != k :: !RunsLater(q[i], q[j]))
    && (forall h: nat, j: nat {:trigger IsChild(h, k), IsChild(k, j)} |
          h < |q| && j < |q| && IsChild(h, k) && IsChild(k, j) :: !RunsLater(q[h], q[j]))
  }

  /** Heap order everywhere but between `k` and its children. */
  ghost predicate IsHeapBelow<S>(q: seq<JobElement<S>>, k: nat) {
    && (forall i: nat, j: nat {:trigger IsChild(i, j)} | i < |q| && j < |q| && IsChild(i, j) && i != k :: !RunsLater(q[i], q[j]))
    && (forall h: nat, j: nat {:trigger IsChild(h, k), IsChild(k, j)} |
          h < |q| && j < |q| && IsChild(h, k) && IsChild(k, j) :: !RunsLater(q[h], q[j]))
  }

  lemma {:induction false} SiftUpHeap<S>(q: seq<JobElement<S>>, k: nat)
    requires k < |q| && IsHeapAbove(q, k)
    ensures IsHeap(SiftUp(q, k))
    decreases k
  {
    if k > 0 {
      assert IsChild(Parent(k), k);
      if RunsLater(q[Parent(k)], q[k]) {
        SiftUpHeap(Swap(q, Parent(k), k), Parent(k));
      }
    }
  }

  lemma {:induction false} SiftDownHeap<S>(q: seq<JobElement<S>>, k: nat)
    requires k < |q| && IsHeapBelow(q, k)
    ensures IsHeap(SiftDown(q, k))
    decreases |q| - k
  {
    if 2 * k + 1 < |q| {
      assert IsChild(k, 2 * k + 1) && IsChild(k, 2 * k + 2);
      var c := FirstChild(q, k);
      if RunsLater(q[k], q[c]) {
        SiftDownHeap(Swap(q, k, c), c);
      }
    }
  }

  /** The root runs no later than anything that precedes position `k`. */
  lemma {:induction false} RootFirstBefore<S>(q: seq<JobElement<S>>, k: nat, j: nat)
    requires j < k <= |q|
    requires forall i: nat, l: nat {:trigger IsChild(i, l)} | i < l < k && IsChild(i, l) :: !RunsLater(q[i], q[l])
    ensures !RunsLater(q[0], q[j])
    decreases j
  {
    if j > 0 {
      assert IsChild(Parent(j), j);
      RootFirstBefore(q, k, Parent(j));
    }
  }

  /** top() is a minimum. */
  lemma RootRunsFirst<S>(q: seq<JobElement<S>>)
    requires IsHeap(q)
    ensures forall e | e in q :: !RunsLater(q[0], e)
  {
    forall j: nat | j < |q| ensures !RunsLater(q[0], q[j]) {
      RootFirstBefore(q, |q|, j);
    }
  }

  /** Sifting up replaces the root only by a strictly earlier element: ties stay put. */
  lemma {:induction false} SiftUpRoot<S>(q: seq<JobElement<S>>, k: nat)
    requires k < |q| && IsHeapAbove(q, k)
    ensures SiftUp(q, k)[0] == if RunsLater(q[0], q[k]) then q[k] else q[0]
    decreases k
  {
    if k > 0 {
      assert IsChild(Parent(k), k);
      RootFirstBefore(q, k, Parent(k));
      if RunsLater(q[Parent(k)], q[k]) {
        SiftUpRoot(Swap(q, Parent(k), k), Parent(k));
      }
    }
  }

  // ---------- What push and pop do ----------

  lemma PushedHeap<S>(q: seq<JobElement<S>>, x: JobElement<S>)
    requires IsHeap(q)
    ensures var p := Pushed(q, x);
            && IsHeap(p)
            && multiset(p) == multiset(q) + multiset{x}
            && p[0] == if q == [] || RunsLater(q[0], x) then x else q[0]
  {
    var a := q + [x];
    assert IsHeapAbove(a, |q|);
    SiftUpHeap(a, |q|);
    SiftUpRoot(a, |q|);
  }

  lemma PoppedHeap<S>(q: seq<JobElement<S>>)
    requires q != [] && IsHeap(q)
    ensures IsHeap(Popped(q)) && multiset(Popped(q)) == multiset(q) - multiset{q[0]}
  {
    var n := |q| - 1;
    var moved := q[0 := q[n]];
    assert q == q[..n] + [q[n]];
    if n > 0 {
      assert moved[..n] == [q[n]] + q[1..n];
      assert q == [q[0]] + q[1..n] + [q[n]];
      assert IsHeapBelow(moved[..n], 0);
      SiftDownHeap(moved[..n], 0);
    }
  }

  /** The queue as the scheduler holds it. */
  class TaskPriorityQueue<S> {
    var c: seq<JobElement<S>>

    ghost predicate Valid()
      reads this
    {
      IsHeap(c)
    }

    constructor ()
      ensures Valid() && c == []
    {
      c := [];
    }

    method Push(x: JobElement<S>)
      requires Valid()
      modifies this
      ensures Valid() && c == Pushed(old(c), x)
      ensures multiset(c) == old(multiset(c)) + multiset{x}
      ensures c[0] == old(if c == [] || RunsLater(c[0], x) then x else c[0])
    {
      PushedHeap(c, x);
      ghost var target := Pushed(c, x);
      c := c + [x];
      var k := |c| - 1;
      while k > 0 && RunsLater(c[Parent(k)], c[k])
        invariant 0 <= k < |c|
        invariant SiftUp(c, k) == target
        decreases k
      {
        c := Swap(c, Parent(k), k);
        k := Parent(k);
      }
    }

    method Top() returns (x: JobElement<S>)
      requires Valid() && c != []
      ensures x == c[0] && forall e | e in c :: !RunsLater(x, e)
    {
      RootRunsFirst(c);
      x := c[0];
    }

    method Pop()
      requires Valid() && c != []
      modifies this
      ensures Valid() && c == Popped(old(c))
      ensures multiset(c) == old(multiset(c) - multiset{c[0]})
    {
      PoppedHeap(c);
      ghost var target := Popped(c);
      c := c[0 := c[|c| - 1]][..|c| - 1];
      var k := 0;
      while 2 * k + 1 < |c| && RunsLater(c[k], c[FirstChild(c, k)])
        invariant 0 <= k && (c == [] || k < |c|)
        invariant (if c == [] then c else SiftDown(c, k)) == target
        decreases |c| - k
      {
        var child := FirstChild(c, k);
        c := Swap(c, k, child);
        k := child;
      }
    }
  }
}
