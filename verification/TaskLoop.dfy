/** The scheduler's task loop for arbitrary tasks. A running task may push any finite
    list of requests into the queue it was taken from; only then is the queue popped. */
module TaskLoop {
  import opened Ticks
  import opened JobQueue
  import opened Tally

  /** One call of PushTask. */
  datatype Request<S> = Request(owner: S, task: Task, after: Tick)

  function JobOf<S>(now: Tick, r: Request<S>): JobElement<S> {
    JobElement(r.owner, r.task, DueTick(now, r.after))
  }

  function JobsOf<S>(now: Tick, rs: seq<Request<S>>): seq<JobElement<S>> {
    seq(|rs|, i requires 0 <= i < |rs| => JobOf(now, rs[i]))
  }

  function PushAll<S>(now: Tick, q: seq<JobElement<S>>, rs: seq<Request<S>>): (r: seq<JobElement<S>>)
    ensures |r| == |q| + |rs|
    decreases |rs|
  {
    if rs == [] then q else PushAll(now, Pushed(q, JobOf(now, rs[0])), rs[1..])
  }

  /** The loop goes on: the top of the queue is due. */
  predicate Guard<S>(now: Tick, q: seq<JobElement<S>>) {
    q != [] && q[0].mExecutionTick <= now
  }

  /** One iteration, the task of the top element having made the requests `rs`. */
  function Body<S>(now: Tick, q: seq<JobElement<S>>, rs: seq<Request<S>>): seq<JobElement<S>>
    requires q != []
  {
    Popped(PushAll(now, q, rs))
  }

  ghost predicate NoWrap<S>(now: Tick, rs: seq<Request<S>>) {
    forall r | r in rs :: now + r.after < TICK_MODULUS
  }

  ghost predicate Delayed<S>(rs: seq<Request<S>>) {
    forall r | r in rs :: r.after > 0
  }

  // ---------- One iteration ----------

  lemma {:induction false} PushAllHeap<S>(now: Tick, q: seq<JobElement<S>>, rs: seq<Request<S>>)
    requires IsHeap(q)
    ensures var p := PushAll(now, q, rs);
            && IsHeap(p)
            && multiset(p) == multiset(q) + multiset(JobsOf(now, rs))
    decreases |rs|
  {
    if rs == [] {
    } else {
      PushedHeap(q, JobOf(now, rs[0]));
      PushAllHeap(now, Pushed(q, JobOf(now, rs[0])), rs[1..]);
      assert JobsOf(now, rs) == [JobOf(now, rs[0])] + JobsOf(now, rs[1..]);
    }
  }

  /** Pushes leave the root where it is unless one of them is strictly earlier. */
  lemma {:induction false} PushAllRoot<S>(now: Tick, q: seq<JobElement<S>>, rs: seq<Request<S>>)
    requires q != [] && IsHeap(q)
    ensures var p := PushAll(now, q, rs);
            && (if forall r | r in rs :: q[0].mExecutionTick <= DueTick(now, r.after)
                then p[0] == q[0]
                else p[0].mExecutionTick < q[0].mExecutionTick)
    decreases |rs|
  {
    if rs != [] {
      var q1 := Pushed(q, JobOf(now, rs[0]));
      PushedHeap(q, JobOf(now, rs[0]));
      PushAllRoot(now, q1, rs[1..]);
      assert forall r | r in rs :: r == rs[0] || r in rs[1..];
    }
  }

  /** Re-entrant pop: the pop after the task removes the element that was run if and
      only if no push the task made is due strictly before it. */
  lemma PopRemovesExecuted<S>(now: Tick, q: seq<JobElement<S>>, rs: seq<Request<S>>)
    requires q != [] && IsHeap(q)
    ensures IsHeap(Body(now, q, rs))
    ensures multiset(Body(now, q, rs)) == multiset(q) + multiset(JobsOf(now, rs)) - multiset{q[0]}
       <==> forall r | r in rs :: q[0].mExecutionTick <= DueTick(now, r.after)
  {
    var p := PushAll(now, q, rs);
    PushAllHeap(now, q, rs);
    PushAllRoot(now, q, rs);
    PoppedHeap(p);
    var all := multiset(q) + multiset(JobsOf(now, rs));
    assert q[0] in all && p[0] in all;
    if p[0] != q[0] {
      assert (all - multiset{p[0]})[q[0]] != (all - multiset{q[0]})[q[0]];
    }
  }

  lemma UnwrappedJobsAreLater<S>(now: Tick, rs: seq<Request<S>>)
    requires NoWrap(now, rs)
    ensures forall r | r in rs :: now <= DueTick(now, r.after)
    ensures forall j | j in JobsOf(now, rs) :: now <= j.mExecutionTick
    ensures Delayed(rs) ==> forall j | j in JobsOf(now, rs) :: now < j.mExecutionTick
  {
    forall j | j in JobsOf(now, rs)
      ensures now <= j.mExecutionTick && (Delayed(rs) ==> now < j.mExecutionTick)
    {
      var i :| 0 <= i < |rs| && j == JobOf(now, rs[i]);
      assert rs[i] in rs;
    }
  }

  /** In particular for a due element whenever no 32-bit sum wraps. */
  lemma PopRemovesExecutedUnwrapped<S>(now: Tick, q: seq<JobElement<S>>, rs: seq<Request<S>>)
    requires IsHeap(q) && Guard(now, q) && NoWrap(now, rs)
    ensures IsHeap(Body(now, q, rs))
    ensures multiset(Body(now, q, rs)) == multiset(q) + multiset(JobsOf(now, rs)) - multiset{q[0]}
    ensures forall j | j in JobsOf(now, rs) :: now <= j.mExecutionTick
    ensures Delayed(rs) ==> forall j | j in JobsOf(now, rs) :: now < j.mExecutionTick
  {
    PopRemovesExecuted(now, q, rs);
    UnwrappedJobsAreLater(now, rs);
  }

  lemma NextRunsNoEarlier<S>(now: Tick, q: seq<JobElement<S>>, rs: seq<Request<S>>)
    requires IsHeap(q) && Guard(now, q) && NoWrap(now, rs)
    ensures var q1 := Body(now, q, rs); q1 != [] ==> !RunsLater(q[0], q1[0])
  {
    var q1 := Body(now, q, rs);
    PopRemovesExecutedUnwrapped(now, q, rs);
    if q1 != [] {
      RootRunsFirst(q);
      assert q1[0] in multiset(q1);
      assert q1[0] in multiset(q) || q1[0] in multiset(JobsOf(now, rs));
    }
  }

  // ---------- Whole runs of the loop ----------

  /** `rss[i]` are the requests the task of iteration `i` made. */
  predicate IsLoop<S>(now: Tick, q: seq<JobElement<S>>, rss: seq<seq<Request<S>>>)
    decreases |rss|
  {
    rss == [] || (Guard(now, q) && IsLoop(now, Body(now, q, rss[0]), rss[1..]))
  }

  function LoopEnd<S>(now: Tick, q: seq<JobElement<S>>, rss: seq<seq<Request<S>>>): seq<JobElement<S>>
    requires IsLoop(now, q, rss)
    decreases |rss|
  {
    if rss == [] then q else LoopEnd(now, Body(now, q, rss[0]), rss[1..])
  }

  /** The elements whose tasks ran, in order. */
  function Executed<S>(now: Tick, q: seq<JobElement<S>>, rss: seq<seq<Request<S>>>): (run: seq<JobElement<S>>)
    requires IsLoop(now, q, rss)
    ensures |run| == |rss|
    decreases |rss|
  {
    if rss == [] then [] else [q[0]] + Executed(now, Body(now, q, rss[0]), rss[1..])
  }

  ghost function RequestedJobs<S>(now: Tick, rss: seq<seq<Request<S>>>): multiset<JobElement<S>>
    decreases |rss|
  {
    if rss == [] then multiset{} else multiset(JobsOf(now, rss[0])) + RequestedJobs(now, rss[1..])
  }

  ghost predicate NoneWraps<S>(now: Tick, rss: seq<seq<Request<S>>>) {
    forall rs | rs in rss :: NoWrap(now, rs)
  }

  ghost predicate AllDelayed<S>(rss: seq<seq<Request<S>>>) {
    forall rs | rs in rss :: Delayed(rs)
  }

  ghost predicate InOrder<S>(run: seq<JobElement<S>>) {
    forall i, j | 0 <= i < j < |run| :: !RunsLater(run[i], run[j])
  }

  /** Heap order survives any run of the loop, wrapped or not. */
  lemma {:induction false} LoopKeepsHeap<S>(now: Tick, q: seq<JobElement<S>>, rss: seq<seq<Request<S>>>)
    requires IsHeap(q) && IsLoop(now, q, rss)
    ensures IsHeap(LoopEnd(now, q, rss))
    decreases |rss|
  {
    if rss != [] {
      PopRemovesExecuted(now, q, rss[0]);
      LoopKeepsHeap(now, Body(now, q, rss[0]), rss[1..]);
    }
  }

  lemma Regroup<A>(m: multiset<A>, j: multiset<A>, e: A, run: multiset<A>, end: multiset<A>, r: multiset<A>)
    requires e in m
    requires run + end == m + j - multiset{e} + r
    ensures multiset{e} + run + end == m + (j + r)
  {
    var left := m + j - multiset{e};
    assert left + multiset{e} == m + j by { assert e in m + j; }
    assert multiset{e} + run + end == multiset{e} + (left + r);
  }

  /** Without wrap-around a run of the loop, finished or not, loses nothing and runs
      nothing twice. */
  lemma {:induction false} LoopConserves<S>(now: Tick, q: seq<JobElement<S>>, rss: seq<seq<Request<S>>>)
    requires IsHeap(q) && IsLoop(now, q, rss) && NoneWraps(now, rss)
    ensures IsHeap(LoopEnd(now, q, rss))
    ensures multiset(Executed(now, q, rss)) + multiset(LoopEnd(now, q, rss))
         == multiset(q) + RequestedJobs(now, rss)
    decreases |rss|
  {
    if rss != [] {
      var q1 := Body(now, q, rss[0]);
      PopRemovesExecutedUnwrapped(now, q, rss[0]);
      LoopConserves(now, q1, rss[1..]);
      var run := Executed(now, q1, rss[1..]);
      assert multiset([q[0]] + run) == multiset{q[0]} + multiset(run);
      Regroup(multiset(q), multiset(JobsOf(now, rss[0])), q[0],
              multiset(run), multiset(LoopEnd(now, q1, rss[1..])), RequestedJobs(now, rss[1..]));
    }
  }

  lemma PrependInOrder<S>(e: JobElement<S>, run: seq<JobElement<S>>, now: Tick)
    requires InOrder(run) && e.mExecutionTick <= now
    requires forall x | x in run :: e.mExecutionTick <= x.mExecutionTick <= now
    ensures InOrder([e] + run)
    ensures forall x | x in [e] + run :: e.mExecutionTick <= x.mExecutionTick <= now
  {
    var all := [e] + run;
    forall i, j | 0 <= i < j < |all| ensures !RunsLater(all[i], all[j]) {
      assert all[j] == run[j - 1] && run[j - 1] in run;
      assert i > 0 ==> all[i] == run[i - 1];
    }
  }

  /** It runs its elements in nondecreasing tick order, from the queue's first tick up to
      the cached one. */
  lemma {:induction false} LoopRunsInOrder<S>(now: Tick, q: seq<JobElement<S>>, rss: seq<seq<Request<S>>>)
    requires IsHeap(q) && IsLoop(now, q, rss) && NoneWraps(now, rss)
    ensures InOrder(Executed(now, q, rss))
    ensures forall e | e in Executed(now, q, rss) :: q[0].mExecutionTick <= e.mExecutionTick <= now
    decreases |rss|
  {
    if rss != [] {
      var q1 := Body(now, q, rss[0]);
      PopRemovesExecutedUnwrapped(now, q, rss[0]);
      LoopRunsInOrder(now, q1, rss[1..]);
      NextRunsNoEarlier(now, q, rss[0]);
      PrependInOrder(q[0], Executed(now, q1, rss[1..]), now);
    }
  }

  // ---------- Termination ----------

  ghost function DueWeight<S>(now: Tick): JobElement<S> -> nat {
    (e: JobElement<S>) => if e.mExecutionTick <= now then 1 else 0
  }

  ghost function DueCount<S>(m: multiset<JobElement<S>>, now: Tick): nat {
    Total(m, DueWeight(now))
  }

  lemma GuardIffDue<S>(now: Tick, q: seq<JobElement<S>>)
    requires IsHeap(q)
    ensures Guard(now, q) <==> DueCount(multiset(q), now) > 0
    ensures Guard(now, q) <==> exists e :: e in q && e.mExecutionTick <= now
  {
    TotalIsZero(multiset(q), DueWeight(now));
    if q != [] {
      RootRunsFirst(q);
      assert q[0] in q && q[0] in multiset(q);
    }
    if e :| e in q && e.mExecutionTick <= now {
      assert e in multiset(q) && DueWeight<S>(now)(e) == 1;
    }
  }

  /** When every re-entrant delay is positive and none wraps, one iteration lowers the
      number of due elements by exactly one, however long the queue becomes. */
  lemma BodyRunsOneDueJob<S>(now: Tick, q: seq<JobElement<S>>, rs: seq<Request<S>>)
    requires IsHeap(q) && Guard(now, q) && NoWrap(now, rs) && Delayed(rs)
    ensures DueCount(multiset(Body(now, q, rs)), now) == DueCount(multiset(q), now) - 1
  {
    PopRemovesExecutedUnwrapped(now, q, rs);
    var pushed := multiset(JobsOf(now, rs));
    assert q[0] in multiset(q);
    assert multiset(Body(now, q, rs)) == multiset(q) - multiset{q[0]} + pushed;
    TotalOfUnion(multiset(q) - multiset{q[0]}, pushed, DueWeight(now));
    TotalOfOneLess(multiset(q), q[0], DueWeight(now));
    TotalIsZero(pushed, DueWeight(now));
  }

  lemma {:induction false} LoopIsBounded<S>(now: Tick, q: seq<JobElement<S>>, rss: seq<seq<Request<S>>>)
    requires IsHeap(q) && IsLoop(now, q, rss) && NoneWraps(now, rss) && AllDelayed(rss)
    ensures IsHeap(LoopEnd(now, q, rss))
    ensures |rss| + DueCount(multiset(LoopEnd(now, q, rss)), now) == DueCount(multiset(q), now)
    ensures forall j | j in RequestedJobs(now, rss) :: now < j.mExecutionTick
    decreases |rss|
  {
    if rss != [] {
      PopRemovesExecutedUnwrapped(now, q, rss[0]);
      BodyRunsOneDueJob(now, q, rss[0]);
      LoopIsBounded(now, Body(now, q, rss[0]), rss[1..]);
    }
  }

  /** DoTasks refines its simple specification: a finished run of the loop has executed
      each element that was due at entry exactly once and nothing else, and leaves the
      elements that were not due together with everything the tasks pushed. */
  lemma DoTasksRefinesSpec<S>(now: Tick, q: seq<JobElement<S>>, rss: seq<seq<Request<S>>>)
    requires IsHeap(q) && IsLoop(now, q, rss) && NoneWraps(now, rss) && AllDelayed(rss)
    requires !Guard(now, LoopEnd(now, q, rss))
    ensures |rss| == DueCount(multiset(q), now)
    ensures forall e :: multiset(Executed(now, q, rss))[e]
                     == if e.mExecutionTick <= now then multiset(q)[e] else 0
    ensures forall e :: multiset(LoopEnd(now, q, rss))[e]
                     == (if e.mExecutionTick <= now then 0 else multiset(q)[e]) + RequestedJobs(now, rss)[e]
  {
    LoopConserves(now, q, rss);
    LoopIsBounded(now, q, rss);
    LoopRunsInOrder(now, q, rss);
    var end := LoopEnd(now, q, rss);
    var run := Executed(now, q, rss);
    GuardIffDue(now, end);
    assert DueCount(multiset(end), now) == 0;
    assert forall e | e in multiset(run) :: e in run && e.mExecutionTick <= now;
    assert forall e | e in multiset(end) :: e in end && e.mExecutionTick > now;
    SplitByCount(now, multiset(q), RequestedJobs(now, rss), multiset(run), multiset(end));
  }

  lemma SplitByCount<S>(now: Tick, m: multiset<JobElement<S>>, pushed: multiset<JobElement<S>>,
                        run: multiset<JobElement<S>>, end: multiset<JobElement<S>>)
    requires run + end == m + pushed
    requires forall e | e in run :: e.mExecutionTick <= now
    requires forall e | e in end :: now < e.mExecutionTick
    requires forall e | e in pushed :: now < e.mExecutionTick
    ensures forall e :: run[e] == if e.mExecutionTick <= now then m[e] else 0
    ensures forall e :: end[e] == (if e.mExecutionTick <= now then 0 else m[e]) + pushed[e]
  {
    forall e: JobElement<S>
      ensures run[e] == if e.mExecutionTick <= now then m[e] else 0
      ensures end[e] == (if e.mExecutionTick <= now then 0 else m[e]) + pushed[e]
    {
      assert (run + end)[e] == (m + pushed)[e];
      assert run[e] > 0 ==> e in run;
      assert end[e] > 0 ==> e in end;
      assert pushed[e] > 0 ==> e in pushed;
    }
  }
}
