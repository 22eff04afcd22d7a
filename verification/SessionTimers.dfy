/** The task loop when the tasks are the timers of client sessions: a connected owner
    arms the same timer again, a disconnected one lets it lapse. `connected` does not
    change while the loop runs, since neither timer disconnects anybody. */
module SessionTimers {
  import opened Ticks
  import opened JobQueue
  import opened Tally
  import opened TaskLoop

  const PLAYER_HEART_BEAT: Tick := 1000
  const PLAYER_DB_UPDATE_INTERVAL: Tick := 60 * 1000

  function Interval(t: Task): Tick {
    match t
    case OnTick => PLAYER_HEART_BEAT
    case OnDbUpdate => PLAYER_DB_UPDATE_INTERVAL
  }

  /** What the task of `e` pushes. */
  ghost function Rearm<S>(connected: set<S>, e: JobElement<S>): seq<Request<S>> {
    if e.mOwner in connected then [Request(e.mOwner, e.mTask, Interval(e.mTask))] else []
  }

  ghost function TimerBody<S>(now: Tick, connected: set<S>, q: seq<JobElement<S>>): seq<JobElement<S>>
    requires q != []
  {
    Body(now, q, Rearm(connected, q[0]))
  }

  /** The queue after at most `n` iterations. */
  ghost function TimerLoop<S>(now: Tick, connected: set<S>, q: seq<JobElement<S>>, n: nat): seq<JobElement<S>>
    decreases n
  {
    if n == 0 || !Guard(now, q) then q else TimerLoop(now, connected, TimerBody(now, connected, q), n - 1)
  }

  /** The loop of DoTasks comes to an end. */
  ghost predicate Terminates<S>(now: Tick, connected: set<S>, q: seq<JobElement<S>>) {
    exists n: nat :: !Guard(now, TimerLoop(now, connected, q, n))
  }

  /** No timer that is due and whose owner is connected is armed again past 32 bits. */
  ghost predicate WrapFree<S>(now: Tick, connected: set<S>, m: multiset<JobElement<S>>) {
    forall e | e in m && e.mExecutionTick <= now && e.mOwner in connected :: now + Interval(e.mTask) < TICK_MODULUS
  }

  // ---------- The simple specification ----------

  /** What a queued element turns into: itself when not due, otherwise the armed-again
      timer of a connected owner or nothing. */
  ghost function Successor<S>(now: Tick, connected: set<S>, e: JobElement<S>): multiset<JobElement<S>> {
    if e.mExecutionTick > now then multiset{e}
    else if e.mOwner in connected then multiset{JobElement(e.mOwner, e.mTask, DueTick(now, Interval(e.mTask)))}
    else multiset{}
  }

  ghost function SuccessorOf<S>(now: Tick, connected: set<S>): JobElement<S> -> multiset<JobElement<S>> {
    (e: JobElement<S>) => Successor(now, connected, e)
  }

  /** One DoTasks call in one step: every queued element is replaced by its successor. */
  ghost function AfterTasks<S>(now: Tick, connected: set<S>, m: multiset<JobElement<S>>): multiset<JobElement<S>> {
    Replaced(m, SuccessorOf(now, connected))
  }

  /** Replacing one due element by its successor beforehand makes no difference. */
  lemma AfterTasksAbsorbs<S>(now: Tick, connected: set<S>, m: multiset<JobElement<S>>, e: JobElement<S>)
    requires e in m && (e.mOwner in connected ==> now + Interval(e.mTask) < TICK_MODULUS)
    ensures AfterTasks(now, connected, m - multiset{e} + Successor(now, connected, e)) == AfterTasks(now, connected, m)
  {
    var image := SuccessorOf(now, connected);
    ReplacedOfUnion(m - multiset{e}, image(e), image);
    ReplacedOfOneLess(m, e, image);
    ReplacedBySelf(image(e), image);
  }

  // ---------- The loop refines it ----------

  lemma RearmedJobs<S>(now: Tick, connected: set<S>, e: JobElement<S>)
    requires e.mExecutionTick <= now
    ensures multiset(JobsOf(now, Rearm(connected, e))) == Successor(now, connected, e)
  {
    if e.mOwner in connected {
      assert JobsOf(now, Rearm(connected, e)) == [JobElement(e.mOwner, e.mTask, DueTick(now, Interval(e.mTask)))];
    } else {
      assert JobsOf(now, Rearm(connected, e)) == [];
    }
  }

  /** One iteration without wrap-around swaps the top for its successor. */
  lemma TimerBodySwapsTop<S>(now: Tick, connected: set<S>, q: seq<JobElement<S>>)
    requires IsHeap(q) && Guard(now, q)
    requires q[0].mOwner in connected ==> now + Interval(q[0].mTask) < TICK_MODULUS
    ensures IsHeap(TimerBody(now, connected, q))
    ensures multiset(TimerBody(now, connected, q)) == multiset(q) - multiset{q[0]} + Successor(now, connected, q[0])
    ensures DueCount(multiset(TimerBody(now, connected, q)), now) == DueCount(multiset(q), now) - 1
  {
    var rs := Rearm(connected, q[0]);
    PopRemovesExecutedUnwrapped(now, q, rs);
    BodyRunsOneDueJob(now, q, rs);
    RearmedJobs(now, connected, q[0]);
    AddThenRemove(multiset(q), multiset(JobsOf(now, rs)), q[0]);
  }

  lemma AddThenRemove<A>(m: multiset<A>, j: multiset<A>, e: A)
    requires e in m
    ensures m + j - multiset{e} == m - multiset{e} + j
  {
  }

  /** What remains to be done by the loop is unchanged by an iteration. */
  lemma TimerBodyStep<S>(now: Tick, connected: set<S>, m: multiset<JobElement<S>>, e: JobElement<S>)
    requires e in m && e.mExecutionTick <= now && WrapFree(now, connected, m)
    ensures var m' := m - multiset{e} + Successor(now, connected, e);
            && WrapFree(now, connected, m')
            && AfterTasks(now, connected, m') == AfterTasks(now, connected, m)
  {
    AfterTasksAbsorbs(now, connected, m, e);
    forall x | x in m - multiset{e} + Successor(now, connected, e)
      ensures x.mExecutionTick <= now && x.mOwner in connected ==> now + Interval(x.mTask) < TICK_MODULUS
    {
      assert x in m || x in Successor(now, connected, e);
    }
  }

  lemma TimerBodyAdvances<S>(now: Tick, connected: set<S>, q: seq<JobElement<S>>)
    requires IsHeap(q) && Guard(now, q) && WrapFree(now, connected, multiset(q))
    ensures var q1 := TimerBody(now, connected, q);
            && IsHeap(q1)
            && WrapFree(now, connected, multiset(q1))
            && DueCount(multiset(q1), now) == DueCount(multiset(q), now) - 1
            && AfterTasks(now, connected, multiset(q1)) == AfterTasks(now, connected, multiset(q))
  {
    assert q[0] in multiset(q);
    TimerBodySwapsTop(now, connected, q);
    TimerBodyStep(now, connected, multiset(q), q[0]);
  }

  lemma AfterTasksWhenNoneDue<S>(now: Tick, connected: set<S>, q: seq<JobElement<S>>)
    requires IsHeap(q) && !Guard(now, q)
    ensures AfterTasks(now, connected, multiset(q)) == multiset(q)
  {
    GuardIffDue(now, q);
    var image := SuccessorOf(now, connected);
    forall e | e in multiset(q) ensures image(e) == multiset{e} {
      assert e in q;
    }
    ReplacedBySelf(multiset(q), image);
  }

  /** Without wrap-around the loop stops after exactly as many iterations as there were
      due elements, and has done to the queue what the simple specification says. */
  lemma {:induction false} TimerLoopRefinesSpec<S>(now: Tick, connected: set<S>, q: seq<JobElement<S>>, n: nat)
    requires IsHeap(q) && WrapFree(now, connected, multiset(q)) && n == DueCount(multiset(q), now)
    ensures var end := TimerLoop(now, connected, q, n);
            && IsHeap(end)
            && !Guard(now, end)
            && multiset(end) == AfterTasks(now, connected, multiset(q))
    decreases n
  {
    hide IsHeap, WrapFree, AfterTasks, DueCount, TimerBody;
    GuardIffDue(now, q);
    if n > 0 {
      TimerBodyAdvances(now, connected, q);
      TimerLoopRefinesSpec(now, connected, TimerBody(now, connected, q), n - 1);
    } else {
      AfterTasksWhenNoneDue(now, connected, q);
    }
  }

  /** What one iteration of the real loop does to the queue: push, then pop. */
  lemma TimerBodyUnfolds<S>(now: Tick, connected: set<S>, q: seq<JobElement<S>>)
    requires q != []
    ensures var e := q[0];
            TimerBody(now, connected, q) ==
              if e.mOwner in connected then
                Popped(Pushed(q, JobElement(e.mOwner, e.mTask, DueTick(now, Interval(e.mTask)))))
              else Popped(q)
  {
    var rs := Rearm(connected, q[0]);
    if rs != [] {
      assert PushAll(now, q, rs) == PushAll(now, Pushed(q, JobOf(now, rs[0])), rs[1..]);
    }
  }

  /** The element the pop after the task of `e` removes: the one the task has just pushed
      if that is due strictly earlier, otherwise `e`. */
  ghost function Removed<S>(now: Tick, connected: set<S>, e: JobElement<S>): (x: JobElement<S>)
    ensures x.mOwner == e.mOwner
  {
    var next := DueTick(now, Interval(e.mTask));
    if e.mOwner in connected && next < e.mExecutionTick then JobElement(e.mOwner, e.mTask, next) else e
  }

  /** One iteration, wrapped or not. */
  lemma TimerBodyRemoves<S>(now: Tick, connected: set<S>, q: seq<JobElement<S>>)
    requires IsHeap(q) && Guard(now, q)
    ensures IsHeap(TimerBody(now, connected, q))
    ensures Removed(now, connected, q[0]) in multiset(q) + Successor(now, connected, q[0])
    ensures multiset(TimerBody(now, connected, q))
         == multiset(q) + Successor(now, connected, q[0]) - multiset{Removed(now, connected, q[0])}
  {
    hide IsHeap, PushAll, Popped;
    var rs := Rearm(connected, q[0]);
    var p := PushAll(now, q, rs);
    PushAllHeap(now, q, rs);
    PushAllRoot(now, q, rs);
    PoppedHeap(p);
    RearmedJobs(now, connected, q[0]);
    RootRunsFirst(q);
    assert p[0] in multiset(p);
    assert p[0] == q[0] || p[0] !in q;
    if q[0].mOwner in connected {
      assert rs[0] in rs;
    }
  }

  /** The requests the tasks of the first `n` iterations make. */
  ghost function TimerRequests<S>(now: Tick, connected: set<S>, q: seq<JobElement<S>>, n: nat): seq<seq<Request<S>>>
    decreases n
  {
    if n == 0 || !Guard(now, q) then []
    else [Rearm(connected, q[0])] + TimerRequests(now, connected, TimerBody(now, connected, q), n - 1)
  }

  lemma RearmIsDelayed<S>(connected: set<S>, e: JobElement<S>)
    ensures Delayed(Rearm(connected, e))
  {
  }

  /** The loop over session timers is a run of the general loop in which every task
      requests what its element calls for, so all that holds of the latter applies. */
  lemma {:induction false} TimerLoopIsLoop<S>(now: Tick, connected: set<S>, q: seq<JobElement<S>>, n: nat)
    ensures var rss := TimerRequests(now, connected, q, n);
            && IsLoop(now, q, rss)
            && LoopEnd(now, q, rss) == TimerLoop(now, connected, q, n)
            && AllDelayed(rss)
            && forall i | 0 <= i < |rss| :: rss[i] == Rearm(connected, Executed(now, q, rss)[i])
    decreases n
  {
    hide PushAll, Popped, Rearm;
    var rss := TimerRequests(now, connected, q, n);
    if n > 0 && Guard(now, q) {
      var q1 := TimerBody(now, connected, q);
      var rest := TimerRequests(now, connected, q1, n - 1);
      TimerLoopIsLoop(now, connected, q1, n - 1);
      assert rss[0] == Rearm(connected, q[0]) && rss[1..] == rest;
      forall i | 0 <= i < |rss| ensures rss[i] == Rearm(connected, Executed(now, q, rss)[i]) {
        if i > 0 {
          assert Executed(now, q, rss)[i] == Executed(now, q1, rest)[i - 1];
        }
      }
      RearmIsDelayed(connected, q[0]);
    }
  }

  lemma RearmNeverWraps<S>(now: Tick, connected: set<S>, q: seq<JobElement<S>>)
    requires Guard(now, q) && WrapFree(now, connected, multiset(q))
    ensures NoWrap(now, Rearm(connected, q[0]))
  {
    assert q[0] in multiset(q);
  }

  lemma OneMoreNeverWraps<S>(now: Tick, rs: seq<Request<S>>, rss: seq<seq<Request<S>>>)
    requires NoWrap(now, rs) && NoneWraps(now, rss)
    ensures NoneWraps(now, [rs] + rss)
  {
  }

  lemma {:induction false} WrapFreeLoopNeverWraps<S>(now: Tick, connected: set<S>, q: seq<JobElement<S>>, n: nat)
    requires IsHeap(q) && WrapFree(now, connected, multiset(q))
    ensures NoneWraps(now, TimerRequests(now, connected, q, n))
    decreases n
  {
    hide IsHeap, TimerBody, WrapFree, NoWrap, AfterTasks, DueCount;
    if n > 0 && Guard(now, q) {
      var q1 := TimerBody(now, connected, q);
      RearmNeverWraps(now, connected, q);
      TimerBodyAdvances(now, connected, q);
      WrapFreeLoopNeverWraps(now, connected, q1, n - 1);
      OneMoreNeverWraps(now, Rearm(connected, q[0]), TimerRequests(now, connected, q1, n - 1));
    }
  }

  // ---------- Exactly when it terminates ----------

  /** A due timer of a connected owner whose next due tick wraps. */
  ghost predicate Relapses<S>(now: Tick, connected: set<S>, e: JobElement<S>) {
    e.mExecutionTick <= now && e.mOwner in connected && TICK_MODULUS <= now + Interval(e.mTask)
  }

  lemma RelapsePersistsIn<S>(now: Tick, connected: set<S>, m: multiset<JobElement<S>>, top: JobElement<S>,
                             removed: JobElement<S>, e: JobElement<S>)
    returns (e': JobElement<S>)
    requires top in m && e in m && top.mExecutionTick <= now && Relapses(now, connected, e)
    requires removed == top || Relapses(now, connected, top)
    requires removed in m + multiset(JobsOf(now, Rearm(connected, top)))
    ensures e' in m + multiset(JobsOf(now, Rearm(connected, top))) - multiset{removed}
    ensures Relapses(now, connected, e')
  {
    var pushed := multiset(JobsOf(now, Rearm(connected, top)));
    RearmedJobs(now, connected, top);
    if !Relapses(now, connected, top) {
      e' := e;
      assert (m + pushed - multiset{removed})[e] >= m[e];
    } else if removed == top {
      e' := JobElement(top.mOwner, top.mTask, DueTick(now, Interval(top.mTask)));
      assert pushed[e'] > 0 && m[top] > 0;
      assert (m + pushed)[e'] >= if e' == top then 2 else 1;
    } else {
      e' := top;
      assert (m + pushed - multiset{removed})[top] >= m[top];
    }
  }

  /** Such a timer is due again at once, so the loop always finds one: whichever element
      the pop removes, another takes its place. */
  lemma RelapsePersists<S>(now: Tick, connected: set<S>, q: seq<JobElement<S>>, e: JobElement<S>)
    returns (e': JobElement<S>)
    requires IsHeap(q) && e in q && Relapses(now, connected, e)
    ensures Guard(now, q) && IsHeap(TimerBody(now, connected, q))
    ensures e' in TimerBody(now, connected, q) && Relapses(now, connected, e')
  {
    GuardIffDue(now, q);
    var rs := Rearm(connected, q[0]);
    var p := PushAll(now, q, rs);
    PushAllHeap(now, q, rs);
    PushAllRoot(now, q, rs);
    PoppedHeap(p);
    assert p[0] in multiset(p);
    e' := RelapsePersistsIn(now, connected, multiset(q), q[0], p[0], e);
    assert e' in multiset(TimerBody(now, connected, q));
  }

  lemma {:induction false} RelapseForever<S>(now: Tick, connected: set<S>, q: seq<JobElement<S>>, e: JobElement<S>, n: nat)
    requires IsHeap(q) && e in q && Relapses(now, connected, e)
    ensures Guard(now, TimerLoop(now, connected, q, n))
    decreases n
  {
    var e' := RelapsePersists(now, connected, q, e);
    if n > 0 {
      RelapseForever(now, connected, TimerBody(now, connected, q), e', n - 1);
    }
  }

  /** DoTasks returns if and only if no due timer of a connected session is armed again
      at a tick that wraps; otherwise it runs that session's timer for ever. */
  lemma DoTasksReturnsIffWrapFree<S>(now: Tick, connected: set<S>, q: seq<JobElement<S>>)
    requires IsHeap(q)
    ensures Terminates(now, connected, q) <==> WrapFree(now, connected, multiset(q))
  {
    if WrapFree(now, connected, multiset(q)) {
      TimerLoopRefinesSpec(now, connected, q, DueCount(multiset(q), now));
    } else {
      var e :| e in multiset(q) && Relapses(now, connected, e);
      forall n: nat ensures Guard(now, TimerLoop(now, connected, q, n)) {
        RelapseForever(now, connected, q, e, n);
      }
    }
  }

  /** An iteration whose task pushes a strictly earlier element changes nothing. */
  lemma EarlierRearmChangesNothing<S>(now: Tick, connected: set<S>, q: seq<JobElement<S>>)
    requires IsHeap(q) && Guard(now, q) && Removed(now, connected, q[0]) != q[0]
    ensures IsHeap(TimerBody(now, connected, q)) && multiset(TimerBody(now, connected, q)) == multiset(q)
  {
    TimerBodyRemoves(now, connected, q);
  }
}
