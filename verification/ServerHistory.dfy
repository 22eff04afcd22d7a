/** Every run of the server is a history of its scheduler, so what holds of all histories
    holds of the sessions' timers. */
module ServerHistory {
  import opened Ticks
  import opened JobQueue
  import opened TaskLoop
  import opened SessionTimers
  import opened ServerModel
  import Lifetimes
  import TimerChains
  import History = SchedulerHistory

  /** The scheduler holds the world's timers, in some heap. */
  ghost predicate Tracks<S>(st: History.SchedulerState<S>, w: World<S>) {
    st.mCurrentTick == w.mCurrentTick && IsHeap(st.mTaskQueue) && multiset(st.mTaskQueue) == w.queue
  }

  /** The login leaves its session connected, and so arms both timers. */
  ghost predicate ArmsTimers<S>(w: World<S>, ev: Event<S>) {
    ev.LoginDone? && TimerChains.StartsTimers(w, ev, ev.s)
  }

  /** The calls of the scheduler that the event makes. */
  ghost function CallsOf<S>(w: World<S>, ev: Event<S>, q: seq<JobElement<S>>): seq<History.Call<S>> {
    if ArmsTimers(w, ev) then
      [History.PushTask(Request(ev.s, OnTick, PLAYER_HEART_BEAT))] +
      [History.PushTask(Request(ev.s, OnDbUpdate, PLAYER_DB_UPDATE_INTERVAL))]
    else if ev.DoTasks? then
      [History.DoTasks(ev.now, TimerRequests(ev.now, Connected(w), q, DueCount(multiset(q), ev.now)))]
    else []
  }

  ghost function StateAfter<S>(w: World<S>, ev: Event<S>, st: History.SchedulerState<S>): History.SchedulerState<S> {
    var q := st.mTaskQueue;
    if ArmsTimers(w, ev) then
      st.(mTaskQueue := Pushed(Pushed(q, TimerAt(st.mCurrentTick, ev.s, OnTick)), TimerAt(st.mCurrentTick, ev.s, OnDbUpdate)))
    else if ev.DoTasks? then
      History.SchedulerState(ev.now, TimerLoop(ev.now, Connected(w), q, DueCount(multiset(q), ev.now)))
    else st
  }

  ghost function CallsOfRun<S>(w: World<S>, evs: seq<Event<S>>, st: History.SchedulerState<S>): seq<History.Call<S>>
    decreases |evs|
  {
    if evs == [] then []
    else CallsOf(w, evs[0], st.mTaskQueue) + CallsOfRun(Step(w, evs[0]), evs[1..], StateAfter(w, evs[0], st))
  }

  /** No login arms a timer past 32 bits. */
  ghost predicate LoginsNeverWrap<S>(w: World<S>, evs: seq<Event<S>>)
    decreases |evs|
  {
    evs == [] ||
    ((ArmsTimers(w, evs[0]) ==> w.mCurrentTick + PLAYER_DB_UPDATE_INTERVAL < TICK_MODULUS) &&
     LoginsNeverWrap(Step(w, evs[0]), evs[1..]))
  }

  ghost predicate ClockGoesOn<S>(now: Tick, evs: seq<Event<S>>)
    decreases |evs|
  {
    evs == [] ||
    if evs[0].DoTasks? then now <= evs[0].now && ClockGoesOn(evs[0].now, evs[1..])
    else ClockGoesOn(now, evs[1..])
  }

  // ---------- Histories one after the other ----------

  lemma {:induction false} Concat<S>(st: History.SchedulerState<S>, a: seq<History.Call<S>>, b: seq<History.Call<S>>)
    requires History.IsHistory(st, a) && History.IsHistory(History.End(st, a), b)
    ensures History.IsHistory(st, a + b)
    ensures History.End(st, a + b) == History.End(History.End(st, a), b)
    decreases |a|
  {
    hide History.Returns, History.After;
    if a == [] {
      assert a + b == b;
    } else {
      assert (a + b)[1..] == a[1..] + b;
      Concat(History.After(st, a[0]), a[1..], b);
    }
  }

  lemma {:induction false} ConcatNeverWraps<S>(st: History.SchedulerState<S>, a: seq<History.Call<S>>, b: seq<History.Call<S>>)
    requires History.IsHistory(st, a) && History.IsHistory(History.End(st, a), b)
    requires History.NeverWraps(st, a) && History.NeverWraps(History.End(st, a), b)
    ensures History.IsHistory(st, a + b) && History.NeverWraps(st, a + b)
    decreases |a|
  {
    hide History.Returns, History.After, History.CallNeverWraps;
    if a == [] {
      assert a + b == b;
    } else {
      assert (a + b)[1..] == a[1..] + b;
      ConcatNeverWraps(History.After(st, a[0]), a[1..], b);
    }
  }

  lemma {:induction false} ConcatIsMonotone<S>(st: History.SchedulerState<S>, a: seq<History.Call<S>>, b: seq<History.Call<S>>)
    requires History.IsHistory(st, a) && History.ClockIsMonotone(st.mCurrentTick, a)
    requires History.ClockIsMonotone(History.End(st, a).mCurrentTick, b)
    ensures History.ClockIsMonotone(st.mCurrentTick, a + b)
    decreases |a|
  {
    hide History.Returns;
    if a == [] {
      assert a + b == b;
    } else {
      assert (a + b)[1..] == a[1..] + b;
      ConcatIsMonotone(History.After(st, a[0]), a[1..], b);
    }
  }

  /** All of it at once. */
  lemma Join<S>(st: History.SchedulerState<S>, a: seq<History.Call<S>>, b: seq<History.Call<S>>)
    requires History.IsHistory(st, a) && History.IsHistory(History.End(st, a), b)
    ensures History.IsHistory(st, a + b)
    ensures History.End(st, a + b) == History.End(History.End(st, a), b)
    ensures History.NeverWraps(st, a) && History.NeverWraps(History.End(st, a), b) ==> History.NeverWraps(st, a + b)
    ensures History.ClockIsMonotone(st.mCurrentTick, a)
            && History.ClockIsMonotone(History.End(st, a).mCurrentTick, b)
            ==> History.ClockIsMonotone(st.mCurrentTick, a + b)
  {
    hide History.IsHistory, History.End, History.NeverWraps, History.ClockIsMonotone;
    Concat(st, a, b);
    if History.NeverWraps(st, a) && History.NeverWraps(History.End(st, a), b) {
      ConcatNeverWraps(st, a, b);
    }
    if History.ClockIsMonotone(st.mCurrentTick, a) && History.ClockIsMonotone(History.End(st, a).mCurrentTick, b) {
      ConcatIsMonotone(st, a, b);
    }
  }

  lemma OneCall<S>(st: History.SchedulerState<S>, call: History.Call<S>)
    requires History.Returns(st, call)
    ensures History.IsHistory(st, [call]) && History.End(st, [call]) == History.After(st, call)
    ensures History.CallNeverWraps(st, call) ==> History.NeverWraps(st, [call])
    ensures (call.DoTasks? ==> st.mCurrentTick <= call.tick) ==> History.ClockIsMonotone(st.mCurrentTick, [call])
  {
    assert [call][1..] == [];
  }

  // ---------- One event ----------

  lemma LoginIsHistory<S>(w: World<S>, ev: Event<S>, st: History.SchedulerState<S>)
    requires Tracks(st, w) && ArmsTimers(w, ev)
    ensures var calls := CallsOf(w, ev, st.mTaskQueue);
            && History.IsHistory(st, calls)
            && History.End(st, calls) == StateAfter(w, ev, st)
            && History.ClockIsMonotone(st.mCurrentTick, calls)
            && (w.mCurrentTick + PLAYER_DB_UPDATE_INTERVAL < TICK_MODULUS ==> History.NeverWraps(st, calls))
  {
    hide IsHeap, Pushed;
    var beat := History.PushTask(Request(ev.s, OnTick, PLAYER_HEART_BEAT));
    var update := History.PushTask(Request(ev.s, OnDbUpdate, PLAYER_DB_UPDATE_INTERVAL));
    OneCall(st, beat);
    OneCall(History.After(st, beat), update);
    Join(st, [beat], [update]);
  }

  lemma LoginKeepsTrack<S>(w: World<S>, ev: Event<S>, st: History.SchedulerState<S>)
    requires Tracks(st, w) && ArmsTimers(w, ev)
    ensures Tracks(StateAfter(w, ev, st), Step(w, ev))
  {
    var q, tick := st.mTaskQueue, st.mCurrentTick;
    PushedHeap(q, TimerAt(tick, ev.s, OnTick));
    PushedHeap(Pushed(q, TimerAt(tick, ev.s, OnTick)), TimerAt(tick, ev.s, OnDbUpdate));
    IsLoginDone(w, ev.s, ev.fits, ev.lingerOk);
  }

  lemma DoTasksIsHistory<S>(w: World<S>, now: Tick, st: History.SchedulerState<S>)
    requires Tracks(st, w) && Enabled(w, DoTasks(now))
    ensures var calls := CallsOf(w, DoTasks(now), st.mTaskQueue);
            && History.IsHistory(st, calls)
            && History.End(st, calls) == StateAfter(w, DoTasks(now), st)
            && History.NeverWraps(st, calls)
            && (st.mCurrentTick <= now ==> History.ClockIsMonotone(st.mCurrentTick, calls))
    ensures Tracks(StateAfter(w, DoTasks(now), st), Step(w, DoTasks(now)))
  {
    hide IsHeap, WrapFree, DueCount, AfterTasks;
    var q := st.mTaskQueue;
    var n := DueCount(multiset(q), now);
    TimerLoopIsLoop(now, Connected(w), q, n);
    TimerLoopRefinesSpec(now, Connected(w), q, n);
    WrapFreeLoopNeverWraps(now, Connected(w), q, n);
    OneCall(st, History.DoTasks(now, TimerRequests(now, Connected(w), q, n)));
  }

  lemma OtherEventArmsNothing<S>(w: World<S>, ev: Event<S>)
    requires !ArmsTimers(w, ev) && !ev.DoTasks?
    ensures Step(w, ev).queue == w.queue && Step(w, ev).mCurrentTick == w.mCurrentTick
  {
    if ev.LoginDone? && ev.s in w.sessions {
      IsLoginDone(w, ev.s, ev.fits, ev.lingerOk);
    } else if !ev.Accept? && !ev.CollectGarbage? && ev.s in w.sessions {
      CallOnlyLetsGo(w, ev);
    }
  }

  lemma EventIsHistory<S>(w: World<S>, ev: Event<S>, st: History.SchedulerState<S>)
    requires Tracks(st, w) && Enabled(w, ev)
    ensures var calls := CallsOf(w, ev, st.mTaskQueue);
            && History.IsHistory(st, calls)
            && History.End(st, calls) == StateAfter(w, ev, st)
            && (LoginsNeverWrap(w, [ev]) ==> History.NeverWraps(st, calls))
            && (ClockGoesOn(st.mCurrentTick, [ev]) ==> History.ClockIsMonotone(st.mCurrentTick, calls))
    ensures Tracks(StateAfter(w, ev, st), Step(w, ev))
  {
    hide IsHeap, DueCount;
    if ArmsTimers(w, ev) {
      LoginIsHistory(w, ev, st);
      LoginKeepsTrack(w, ev, st);
    } else if ev.DoTasks? {
      DoTasksIsHistory(w, ev.now, st);
    } else {
      OtherEventArmsNothing(w, ev);
    }
  }

  // ---------- Whole runs ----------

  /** Every run of the server, started with some heap of its timers, is a history of the
      scheduler that ends with a heap of the timers then queued. */
  lemma {:induction false} RunIsHistory<S>(w: World<S>, evs: seq<Event<S>>, st: History.SchedulerState<S>)
    requires Tracks(st, w) && IsRun(w, evs)
    ensures var calls := CallsOfRun(w, evs, st);
            && History.IsHistory(st, calls)
            && Tracks(History.End(st, calls), RunEnd(w, evs))
            && (LoginsNeverWrap(w, evs) ==> History.NeverWraps(st, calls))
            && (ClockGoesOn(w.mCurrentTick, evs) ==> History.ClockIsMonotone(st.mCurrentTick, calls))
    decreases |evs|
  {
    hide IsHeap, CallsOf, StateAfter, ArmsTimers, Step;
    if evs != [] {
      var next := StateAfter(w, evs[0], st);
      EventIsHistory(w, evs[0], st);
      RunIsHistory(Step(w, evs[0]), evs[1..], next);
      Join(st, CallsOf(w, evs[0], st.mTaskQueue), CallsOfRun(Step(w, evs[0]), evs[1..], next));
      assert LoginsNeverWrap(w, evs) ==> LoginsNeverWrap(w, [evs[0]]);
      assert ClockGoesOn(w.mCurrentTick, evs) ==> ClockGoesOn(w.mCurrentTick, [evs[0]]);
      CallKeepsTick(w, evs[0]);
    }
  }

  /** The sessions' timers over any run from start-up whose clock does not go back and
      whose logins do not wrap: every timer armed is run exactly once or still queued, all
      runs are in the order of their due ticks, and none is before its whole interval has
      passed since it was armed. */
  lemma TimersRunOnceInOrderAndOnTime<S>(t0: Tick, evs: seq<Event<S>>)
    requires IsRun(Lifetimes.Boot(t0), evs) && LoginsNeverWrap(Lifetimes.Boot(t0), evs) && ClockGoesOn(t0, evs)
    ensures var st: History.SchedulerState<S> := History.SchedulerState(t0, []);
            var calls := CallsOfRun(Lifetimes.Boot(t0), evs, st);
            && History.IsHistory(st, calls)
            && var ran, armed := History.Executions(st, calls), History.Records(st, calls);
               && multiset(History.JobsExecuted(ran)) + RunEnd(Lifetimes.Boot(t0), evs).queue
                  == multiset(History.JobsPushed(armed))
               && InOrder(History.JobsExecuted(ran))
               && forall x | x in ran ::
                    exists r :: r in armed && x.job == JobOf(r.at, r.request) && r.at + r.request.after <= x.at
  {
    var st: History.SchedulerState<S> := History.SchedulerState(t0, []);
    var calls := CallsOfRun(Lifetimes.Boot(t0), evs, st);
    RunIsHistory(Lifetimes.Boot(t0), evs, st);
    History.EveryPushRunsExactlyOnce(st, calls);
    History.HistoryRunsInOrder(st, calls, t0);
    History.NothingFiresEarly(st, calls);
  }
}
