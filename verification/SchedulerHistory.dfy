/** Whole histories of a scheduler: any sequence of PushTask and DoTasks calls. */
module SchedulerHistory {
  import opened Ticks
  import opened JobQueue
  import opened TaskLoop

  datatype SchedulerState<S> = SchedulerState(mCurrentTick: Tick, mTaskQueue: seq<JobElement<S>>)

  /** A DoTasks call reads the clock as `tick`; `rss` are the requests of its tasks. */
  datatype Call<S> =
    | PushTask(request: Request<S>)
    | DoTasks(tick: Tick, rss: seq<seq<Request<S>>>)

  /** DoTasks returns only when the top of the queue is not due. */
  predicate Returns<S>(st: SchedulerState<S>, call: Call<S>) {
    call.DoTasks? ==>
      && IsLoop(call.tick, st.mTaskQueue, call.rss)
      && !Guard(call.tick, LoopEnd(call.tick, st.mTaskQueue, call.rss))
  }

  function After<S>(st: SchedulerState<S>, call: Call<S>): SchedulerState<S>
    requires Returns(st, call)
  {
    match call
    case PushTask(r) => st.(mTaskQueue := Pushed(st.mTaskQueue, JobOf(st.mCurrentTick, r)))
    case DoTasks(tick, rss) => SchedulerState(tick, LoopEnd(tick, st.mTaskQueue, rss))
  }

  predicate IsHistory<S>(st: SchedulerState<S>, calls: seq<Call<S>>)
    decreases |calls|
  {
    calls == [] || (Returns(st, calls[0]) && IsHistory(After(st, calls[0]), calls[1..]))
  }

  function End<S>(st: SchedulerState<S>, calls: seq<Call<S>>): SchedulerState<S>
    requires IsHistory(st, calls)
    decreases |calls|
  {
    if calls == [] then st else End(After(st, calls[0]), calls[1..])
  }

  ghost predicate CallNeverWraps<S>(st: SchedulerState<S>, call: Call<S>) {
    match call
    case PushTask(r) => st.mCurrentTick + r.after < TICK_MODULUS
    case DoTasks(tick, rss) => NoneWraps(tick, rss)
  }

  /** No sum of a cached tick and a requested delay leaves 32 bits. */
  ghost predicate NeverWraps<S>(st: SchedulerState<S>, calls: seq<Call<S>>)
    requires IsHistory(st, calls)
    decreases |calls|
  {
    calls == [] || (CallNeverWraps(st, calls[0]) && NeverWraps(After(st, calls[0]), calls[1..]))
  }

  predicate ClockIsMonotone<S>(now: Tick, calls: seq<Call<S>>)
    decreases |calls|
  {
    calls == [] ||
    match calls[0]
    case PushTask(_) => ClockIsMonotone(now, calls[1..])
    case DoTasks(tick, _) => now <= tick && ClockIsMonotone(tick, calls[1..])
  }

  // ---------- What happened ----------

  /** An executed element with the cached tick it ran at. */
  datatype Execution<S> = Execution(job: JobElement<S>, at: Tick)

  /** A request with the cached tick it was pushed at. */
  datatype PushRecord<S> = PushRecord(at: Tick, request: Request<S>)

  function ExecutionsOf<S>(st: SchedulerState<S>, call: Call<S>): seq<Execution<S>>
    requires Returns(st, call)
  {
    match call
    case PushTask(_) => []
    case DoTasks(tick, rss) =>
      var run := Executed(tick, st.mTaskQueue, rss);
      seq(|run|, i requires 0 <= i < |run| => Execution(run[i], tick))
  }

  function Executions<S>(st: SchedulerState<S>, calls: seq<Call<S>>): seq<Execution<S>>
    requires IsHistory(st, calls)
    decreases |calls|
  {
    if calls == [] then [] else ExecutionsOf(st, calls[0]) + Executions(After(st, calls[0]), calls[1..])
  }

  function Flatten<S>(rss: seq<seq<Request<S>>>): seq<Request<S>>
    decreases |rss|
  {
    if rss == [] then [] else rss[0] + Flatten(rss[1..])
  }

  function RecordsOf<S>(st: SchedulerState<S>, call: Call<S>): seq<PushRecord<S>> {
    match call
    case PushTask(r) => [PushRecord(st.mCurrentTick, r)]
    case DoTasks(tick, rss) =>
      seq(|Flatten(rss)|, i requires 0 <= i < |Flatten(rss)| => PushRecord(tick, Flatten(rss)[i]))
  }

  function Records<S>(st: SchedulerState<S>, calls: seq<Call<S>>): seq<PushRecord<S>>
    requires IsHistory(st, calls)
    decreases |calls|
  {
    if calls == [] then [] else RecordsOf(st, calls[0]) + Records(After(st, calls[0]), calls[1..])
  }

  function JobsExecuted<S>(xs: seq<Execution<S>>): seq<JobElement<S>> {
    seq(|xs|, i requires 0 <= i < |xs| => xs[i].job)
  }

  function JobsPushed<S>(rs: seq<PushRecord<S>>): seq<JobElement<S>> {
    seq(|rs|, i requires 0 <= i < |rs| => JobOf(rs[i].at, rs[i].request))
  }

  lemma {:induction false} RequestedJobsAreRecorded<S>(tick: Tick, rss: seq<seq<Request<S>>>)
    ensures multiset(JobsOf(tick, Flatten(rss))) == RequestedJobs(tick, rss)
    decreases |rss|
  {
    if rss != [] {
      RequestedJobsAreRecorded(tick, rss[1..]);
      assert JobsOf(tick, Flatten(rss)) == JobsOf(tick, rss[0]) + JobsOf(tick, Flatten(rss[1..]));
    }
  }

  lemma {:induction false} FlattenedDoNotWrap<S>(tick: Tick, rss: seq<seq<Request<S>>>)
    requires NoneWraps(tick, rss)
    ensures NoWrap(tick, Flatten(rss))
    decreases |rss|
  {
    if rss != [] {
      assert rss[0] in rss && forall rs | rs in rss[1..] :: rs in rss;
      FlattenedDoNotWrap(tick, rss[1..]);
    }
  }

  lemma {:induction false} RecordsDoNotWrap<S>(st: SchedulerState<S>, calls: seq<Call<S>>)
    requires IsHistory(st, calls) && NeverWraps(st, calls)
    ensures forall r | r in Records(st, calls) :: r.at + r.request.after < TICK_MODULUS
    decreases |calls|
  {
    if calls != [] {
      RecordsDoNotWrap(After(st, calls[0]), calls[1..]);
      if calls[0].DoTasks? {
        FlattenedDoNotWrap(calls[0].tick, calls[0].rss);
      }
      assert forall r | r in RecordsOf(st, calls[0]) :: r.at + r.request.after < TICK_MODULUS;
    }
  }

  lemma JobsOfConcat<S>(xs: seq<Execution<S>>, ys: seq<Execution<S>>, rs: seq<PushRecord<S>>, ts: seq<PushRecord<S>>)
    ensures JobsExecuted(xs + ys) == JobsExecuted(xs) + JobsExecuted(ys)
    ensures JobsPushed(rs + ts) == JobsPushed(rs) + JobsPushed(ts)
  {
  }

  lemma ChainConservation<A>(ran0: multiset<A>, mid: multiset<A>, start: multiset<A>, pushed0: multiset<A>,
                             ran1: multiset<A>, end: multiset<A>, pushed1: multiset<A>)
    requires ran0 + mid == start + pushed0
    requires ran1 + end == mid + pushed1
    ensures (ran0 + ran1) + end == start + (pushed0 + pushed1)
  {
    assert (ran0 + ran1) + end == ran0 + (mid + pushed1);
    assert ran0 + (mid + pushed1) == (ran0 + mid) + pushed1;
  }

  // ---------- One call ----------

  lemma PushTaskConserves<S>(st: SchedulerState<S>, r: Request<S>)
    requires IsHeap(st.mTaskQueue)
    ensures IsHeap(After(st, PushTask(r)).mTaskQueue)
    ensures multiset(After(st, PushTask(r)).mTaskQueue)
         == multiset(st.mTaskQueue) + multiset(JobsPushed(RecordsOf(st, PushTask(r))))
  {
    PushedHeap(st.mTaskQueue, JobOf(st.mCurrentTick, r));
    assert JobsPushed(RecordsOf(st, PushTask(r))) == [JobOf(st.mCurrentTick, r)];
  }

  lemma DoTasksConserves<S>(st: SchedulerState<S>, tick: Tick, rss: seq<seq<Request<S>>>)
    requires IsHeap(st.mTaskQueue) && Returns(st, DoTasks(tick, rss)) && NoneWraps(tick, rss)
    ensures var call := DoTasks(tick, rss);
            && IsHeap(After(st, call).mTaskQueue)
            && multiset(Executed(tick, st.mTaskQueue, rss)) + multiset(After(st, call).mTaskQueue)
            == multiset(st.mTaskQueue) + multiset(JobsPushed(RecordsOf(st, call)))
  {
    LoopConserves(tick, st.mTaskQueue, rss);
    RequestedJobsAreRecorded(tick, rss);
    assert JobsPushed(RecordsOf(st, DoTasks(tick, rss))) == JobsOf(tick, Flatten(rss));
  }

  lemma CallConserves<S>(st: SchedulerState<S>, call: Call<S>)
    requires IsHeap(st.mTaskQueue) && Returns(st, call) && CallNeverWraps(st, call)
    ensures var next := After(st, call);
            && IsHeap(next.mTaskQueue)
            && multiset(JobsExecuted(ExecutionsOf(st, call))) + multiset(next.mTaskQueue)
            == multiset(st.mTaskQueue) + multiset(JobsPushed(RecordsOf(st, call)))
  {
    match call
    case PushTask(r) =>
      PushTaskConserves(st, r);
      assert JobsExecuted(ExecutionsOf(st, call)) == [];
    case DoTasks(tick, rss) =>
      DoTasksConserves(st, tick, rss);
      assert JobsExecuted(ExecutionsOf(st, call)) == Executed(tick, st.mTaskQueue, rss);
  }

  // ---------- Whole histories ----------

  /** Exactly once: over any history without wrap-around, what was executed together with
      what is still queued is what was queued at the start together with every push. */
  lemma {:induction false} EveryPushRunsExactlyOnce<S>(st: SchedulerState<S>, calls: seq<Call<S>>)
    requires IsHeap(st.mTaskQueue) && IsHistory(st, calls) && NeverWraps(st, calls)
    ensures IsHeap(End(st, calls).mTaskQueue)
    ensures multiset(JobsExecuted(Executions(st, calls))) + multiset(End(st, calls).mTaskQueue)
         == multiset(st.mTaskQueue) + multiset(JobsPushed(Records(st, calls)))
    decreases |calls|
  {
    if calls == [] {
      assert JobsExecuted(Executions(st, calls)) == [] && JobsPushed(Records(st, calls)) == [];
    } else {
      var next := After(st, calls[0]);
      CallConserves(st, calls[0]);
      EveryPushRunsExactlyOnce(next, calls[1..]);
      var first, rest := ExecutionsOf(st, calls[0]), Executions(next, calls[1..]);
      var pushes, later := RecordsOf(st, calls[0]), Records(next, calls[1..]);
      JobsOfConcat(first, rest, pushes, later);
      ChainConservation(multiset(JobsExecuted(first)), multiset(next.mTaskQueue), multiset(st.mTaskQueue),
                        multiset(JobsPushed(pushes)), multiset(JobsExecuted(rest)),
                        multiset(End(next, calls[1..]).mTaskQueue), multiset(JobsPushed(later)));
    }
  }

  lemma CallRunsInOrder<S>(st: SchedulerState<S>, call: Call<S>, floor: Tick)
    requires IsHeap(st.mTaskQueue) && Returns(st, call) && CallNeverWraps(st, call)
    requires floor <= st.mCurrentTick && forall e | e in st.mTaskQueue :: floor <= e.mExecutionTick
    ensures InOrder(JobsExecuted(ExecutionsOf(st, call)))
    ensures forall x | x in ExecutionsOf(st, call) :: floor <= x.job.mExecutionTick <= x.at == After(st, call).mCurrentTick
    ensures var bound := if call.DoTasks? then call.tick else floor;
            forall e | e in After(st, call).mTaskQueue :: bound <= e.mExecutionTick
  {
    match call
    case PushTask(r) =>
      PushedHeap(st.mTaskQueue, JobOf(st.mCurrentTick, r));
      forall e | e in After(st, call).mTaskQueue ensures floor <= e.mExecutionTick {
        assert e in multiset(After(st, call).mTaskQueue);
      }
    case DoTasks(tick, rss) =>
      LoopRunsInOrder(tick, st.mTaskQueue, rss);
      LoopKeepsHeap(tick, st.mTaskQueue, rss);
      GuardIffDue(tick, After(st, call).mTaskQueue);
      var run := Executed(tick, st.mTaskQueue, rss);
      assert JobsExecuted(ExecutionsOf(st, call)) == run;
      forall x | x in ExecutionsOf(st, call) ensures floor <= x.job.mExecutionTick <= x.at == tick {
        var i :| 0 <= i < |run| && x == Execution(run[i], tick);
        assert run[i] in run && st.mTaskQueue[0] in st.mTaskQueue;
      }
  }

  lemma ConcatInOrder<S>(xs: seq<Execution<S>>, ys: seq<Execution<S>>, tick: Tick)
    requires InOrder(JobsExecuted(xs)) && InOrder(JobsExecuted(ys))
    requires forall x | x in xs :: x.job.mExecutionTick <= tick
    requires forall y | y in ys :: tick <= y.job.mExecutionTick
    ensures InOrder(JobsExecuted(xs + ys))
  {
    var all := JobsExecuted(xs + ys);
    forall i, j | 0 <= i < j < |all| ensures !RunsLater(all[i], all[j]) {
      if j < |xs| {
        assert all[i] == JobsExecuted(xs)[i] && all[j] == JobsExecuted(xs)[j];
      } else if i < |xs| {
        assert xs[i] in xs && ys[j - |xs|] in ys;
      } else {
        assert all[i] == JobsExecuted(ys)[i - |xs|] && all[j] == JobsExecuted(ys)[j - |xs|];
      }
    }
  }

  /** Global order: under a monotone clock and without wrap-around, the execution ticks of
      all tasks of a history, over all of its DoTasks calls, never decrease. `floor` is
      any tick not above the cached one nor above anything queued. */
  lemma {:induction false} HistoryRunsInOrder<S>(st: SchedulerState<S>, calls: seq<Call<S>>, floor: Tick)
    requires IsHeap(st.mTaskQueue) && IsHistory(st, calls) && NeverWraps(st, calls)
    requires ClockIsMonotone(st.mCurrentTick, calls)
    requires floor <= st.mCurrentTick && forall e | e in st.mTaskQueue :: floor <= e.mExecutionTick
    ensures InOrder(JobsExecuted(Executions(st, calls)))
    ensures forall x | x in Executions(st, calls) :: floor <= x.job.mExecutionTick <= x.at
    decreases |calls|
  {
    if calls != [] {
      var next := After(st, calls[0]);
      var bound := if calls[0].DoTasks? then calls[0].tick else floor;
      CallConserves(st, calls[0]);
      CallRunsInOrder(st, calls[0], floor);
      HistoryRunsInOrder(next, calls[1..], bound);
      ConcatInOrder(ExecutionsOf(st, calls[0]), Executions(next, calls[1..]), bound);
    }
  }

  /** No early firing: in a history that starts with an empty queue every executed element
      stems from a push, and the cached tick it ran at is at least the cached tick of that
      push plus the whole requested delay. */
  lemma NothingFiresEarly<S>(st: SchedulerState<S>, calls: seq<Call<S>>)
    requires st.mTaskQueue == [] && IsHistory(st, calls) && NeverWraps(st, calls)
    requires ClockIsMonotone(st.mCurrentTick, calls)
    ensures forall x | x in Executions(st, calls) ::
              exists r :: r in Records(st, calls) && x.job == JobOf(r.at, r.request) && r.at + r.request.after <= x.at
  {
    EveryPushRunsExactlyOnce(st, calls);
    HistoryRunsInOrder(st, calls, st.mCurrentTick);
    RecordsDoNotWrap(st, calls);
    var xs, rs := Executions(st, calls), Records(st, calls);
    forall x | x in xs
      ensures exists r :: r in rs && x.job == JobOf(r.at, r.request) && r.at + r.request.after <= x.at
    {
      var i :| 0 <= i < |xs| && xs[i] == x;
      assert JobsExecuted(xs)[i] == x.job;
      assert x.job in multiset(JobsExecuted(xs)) + multiset(End(st, calls).mTaskQueue);
      assert x.job in JobsPushed(rs);
      var k :| 0 <= k < |rs| && JobsPushed(rs)[k] == x.job;
      assert rs[k] in rs;
    }
  }

  /** On return from any DoTasks, wrapped or not, everything queued is strictly later than the cached tick. */
  lemma NothingDueIsLeft<S>(st: SchedulerState<S>, call: Call<S>)
    requires IsHeap(st.mTaskQueue) && Returns(st, call) && call.DoTasks?
    ensures forall e | e in After(st, call).mTaskQueue :: After(st, call).mCurrentTick < e.mExecutionTick
  {
    LoopKeepsHeap(call.tick, st.mTaskQueue, call.rss);
    GuardIffDue(call.tick, After(st, call).mTaskQueue);
  }
}
