/** When the runs of one timer chain happen, over whole runs of the server. A chain is a
    queued timer, the timer armed when that one runs, and so on. */
module Heartbeat {
  import opened Ticks
  import opened JobQueue
  import opened Tally
  import opened TaskLoop
  import opened SessionTimers
  import opened ServerModel
  import opened Lifetimes

  ghost predicate StaysConnected<S>(w: World<S>, evs: seq<Event<S>>, s: S)
    decreases |evs|
  {
    IsConnected(w, s) && (evs == [] || StaysConnected(Step(w, evs[0]), evs[1..], s))
  }

  /** DoTasks is called at ticks that never go back and at most `gap` apart. */
  ghost predicate Paced<S>(now: int, evs: seq<Event<S>>, gap: nat)
    decreases |evs|
  {
    evs == [] ||
    if evs[0].DoTasks? then now <= evs[0].now <= now + gap && Paced(evs[0].now, evs[1..], gap)
    else Paced(now, evs[1..], gap)
  }

  /** The event is a DoTasks that finds `e` queued and due, and so runs it. */
  ghost predicate RunsIn<S>(w: World<S>, ev: Event<S>, e: JobElement<S>) {
    ev.DoTasks? && e in w.queue && e.mExecutionTick <= ev.now
  }

  /** The chain's queued element after the event. */
  ghost function NextLink<S>(w: World<S>, ev: Event<S>, e: JobElement<S>): JobElement<S> {
    if RunsIn(w, ev, e) then TimerAt(ev.now, e.mOwner, e.mTask) else e
  }

  /** The cached ticks at which the chain that starts with `e` runs. */
  ghost function ChainRuns<S>(w: World<S>, evs: seq<Event<S>>, e: JobElement<S>): seq<Tick>
    decreases |evs|
  {
    if evs == [] then []
    else
      (if RunsIn(w, evs[0], e) then [evs[0].now] else []) +
      ChainRuns(Step(w, evs[0]), evs[1..], NextLink(w, evs[0], e))
  }

  ghost function ChainEnd<S>(w: World<S>, evs: seq<Event<S>>, e: JobElement<S>): JobElement<S>
    decreases |evs|
  {
    if evs == [] then e else ChainEnd(Step(w, evs[0]), evs[1..], NextLink(w, evs[0], e))
  }

  // ---------- The chain is really queued ----------

  lemma SuccessorIsQueued<S>(now: Tick, connected: set<S>, m: multiset<JobElement<S>>, e: JobElement<S>)
    requires e in m
    ensures Successor(now, connected, e) <= AfterTasks(now, connected, m)
  {
    ReplacedOfOneLess(m, e, SuccessorOf(now, connected));
    assert SuccessorOf(now, connected)(e) == Successor(now, connected, e);
  }

  lemma ArmedKeepsQueued<S>(w: World<S>, x: S, t: Task)
    requires x in w.sessions
    ensures w.queue <= Armed(w, x, t).queue
  {
  }

  lemma CallKeepsQueued<S>(w: World<S>, ev: Event<S>)
    requires !ev.DoTasks?
    ensures w.queue <= Step(w, ev).queue
  {
    if ev.LoginDone? {
      if ev.s in w.sessions {
        var sent := AfterSendRequest(w, ev.s, ev.fits, ev.lingerOk);
        var marked := sent.(sessions := sent.sessions[ev.s := sent.sessions[ev.s].(mLogon := true)]);
        ArmedKeepsQueued(marked, ev.s, OnTick);
        ArmedKeepsQueued(Armed(marked, ev.s, OnTick), ev.s, OnDbUpdate);
      }
    } else if !ev.Accept? && !ev.CollectGarbage? && ev.s in w.sessions {
      CallOnlyLetsGo(w, ev);
    }
  }

  /** A step keeps a connected session's timer queued, or runs it and queues the next
      link of its chain, due exactly one interval after the cached tick. */
  lemma StepKeepsChainQueued<S>(w: World<S>, ev: Event<S>, e: JobElement<S>)
    requires Enabled(w, ev) && e in w.queue && IsConnected(w, e.mOwner)
    ensures NextLink(w, ev, e) in Step(w, ev).queue
    ensures RunsIn(w, ev, e) ==> NextLink(w, ev, e).mExecutionTick == ev.now + Interval(e.mTask)
  {
    if ev.DoTasks? {
      assert e.mOwner in Connected(w);
      SuccessorIsQueued(ev.now, Connected(w), w.queue, e);
      assert NextLink(w, ev, e) in Successor(ev.now, Connected(w), e);
    } else {
      CallKeepsQueued(w, ev);
    }
  }

  /** While its owner stays connected a chain is never broken: at every point of the run,
      hence also at its end, the chain's current link is queued. */
  lemma {:induction false} ChainIsNeverBroken<S>(w: World<S>, evs: seq<Event<S>>, e: JobElement<S>)
    requires IsRun(w, evs) && e in w.queue && StaysConnected(w, evs, e.mOwner)
    ensures ChainEnd(w, evs, e) in RunEnd(w, evs).queue
    ensures ChainEnd(w, evs, e).mOwner == e.mOwner && ChainEnd(w, evs, e).mTask == e.mTask
    decreases |evs|
  {
    if evs != [] {
      StepKeepsChainQueued(w, evs[0], e);
      ChainIsNeverBroken(Step(w, evs[0]), evs[1..], NextLink(w, evs[0], e));
    }
  }

  // ---------- Spacing ----------

  /** Each run is at least `H` and less than `H + gap` after the one before it. */
  ghost predicate Spaced(runs: seq<Tick>, H: int, gap: int) {
    forall i | 0 < i < |runs| :: H <= runs[i] - runs[i - 1] <= H + gap - 1
  }

  lemma SpacedPrepend(c: Tick, runs: seq<Tick>, H: int, gap: int)
    requires Spaced(runs, H, gap) && (runs != [] ==> H <= runs[0] - c <= H + gap - 1)
    ensures Spaced([c] + runs, H, gap)
  {
    var all := [c] + runs;
    forall i | 0 < i < |all| ensures H <= all[i] - all[i - 1] <= H + gap - 1 {
      if i > 1 {
        assert all[i] == runs[i - 1] && all[i - 1] == runs[i - 2];
      }
    }
  }

  /** Spacing: while the owner stays connected and DoTasks is called at most `gap` apart,
      a timer first runs within `gap - 1` of its due tick, consecutive runs are between
      one interval H and H + gap - 1 apart, and at the end the chain is not behind: its
      current link is one interval after the last run and not yet due. */
  lemma {:induction false} ChainRunsAreSpaced<S>(w: World<S>, evs: seq<Event<S>>, e: JobElement<S>, gap: nat)
    requires IsRun(w, evs) && e in w.queue && StaysConnected(w, evs, e.mOwner)
    requires w.mCurrentTick < e.mExecutionTick && Paced(w.mCurrentTick, evs, gap)
    ensures var runs, H := ChainRuns(w, evs, e), Interval(e.mTask);
            && Spaced(runs, H, gap)
            && (runs != [] ==> e.mExecutionTick <= runs[0] <= e.mExecutionTick + gap - 1)
            && ChainEnd(w, evs, e).mExecutionTick == (if runs == [] then e.mExecutionTick else runs[|runs| - 1] + H)
            && RunEnd(w, evs).mCurrentTick < ChainEnd(w, evs, e).mExecutionTick
    decreases |evs|
  {
    if evs != [] {
      var w1, next := Step(w, evs[0]), NextLink(w, evs[0], e);
      StepKeepsChainQueued(w, evs[0], e);
      CallKeepsTick(w, evs[0]);
      ChainRunsAreSpaced(w1, evs[1..], next, gap);
      if RunsIn(w, evs[0], e) {
        SpacedPrepend(evs[0].now, ChainRuns(w1, evs[1..], next), Interval(e.mTask), gap);
      } else {
        assert ChainRuns(w, evs, e) == ChainRuns(w1, evs[1..], next);
      }
    }
  }

  lemma {:induction false} SpacedFrom(runs: seq<Tick>, H: int, gap: int, k: nat)
    requires Spaced(runs, H, gap) && k < |runs|
    ensures runs[0] + k * H <= runs[k]
    decreases k
  {
    if k > 0 {
      SpacedFrom(runs, H, gap, k - 1);
      assert k * H == (k - 1) * H + H;
    }
  }

  lemma {:induction false} SpacedUpTo(runs: seq<Tick>, H: int, gap: int, k: nat, most: int)
    requires Spaced(runs, H, gap) && k < |runs| && most == H + gap - 1
    ensures runs[k] <= runs[0] + k * most
    decreases k
  {
    if k > 0 {
      SpacedUpTo(runs, H, gap, k - 1, most);
      assert k * most == (k - 1) * most + most;
    }
  }

  lemma DivideBound(n: nat, H: int, d: int)
    requires H > 0 && n * H <= d
    ensures n <= d / H
  {
    var q := d / H;
    assert n >= q + 1 ==> n * H >= (q + 1) * H by {
      if n >= q + 1 {
        assert (n - (q + 1)) * H >= 0;
      }
    }
  }

  lemma SpacedAtLeast(runs: seq<Tick>, H: int, gap: int, T: int)
    requires Spaced(runs, H, gap) && runs != [] && H > 0 && runs[|runs| - 1] <= T
    ensures forall k | 0 <= k < |runs| :: runs[0] + k * H <= runs[k]
    ensures |runs| <= 1 + (T - runs[0]) / H
  {
    forall k | 0 <= k < |runs| ensures runs[0] + k * H <= runs[k] {
      SpacedFrom(runs, H, gap, k);
    }
    SpacedFrom(runs, H, gap, |runs| - 1);
    DivideBound(|runs| - 1, H, T - runs[0]);
  }

  lemma SpacedAtMost(runs: seq<Tick>, H: int, gap: int, T: int)
    requires Spaced(runs, H, gap) && runs != [] && T < runs[|runs| - 1] + H
    ensures T < runs[0] + (|runs| - 1) * (H + gap - 1) + H
  {
    SpacedUpTo(runs, H, gap, |runs| - 1, H + gap - 1);
  }

  /** Neither too often nor too rarely: run number k is at least k intervals after the
      first, and by cached tick T the number of runs n is at most 1 + (T - c0) / H and
      such that one more interval H + gap - 1 after each of them is past T. */
  lemma ChainRunCount<S>(w: World<S>, evs: seq<Event<S>>, e: JobElement<S>, gap: nat)
    requires IsRun(w, evs) && e in w.queue && StaysConnected(w, evs, e.mOwner)
    requires w.mCurrentTick < e.mExecutionTick && Paced(w.mCurrentTick, evs, gap)
    requires ChainRuns(w, evs, e) != []
    ensures var runs, H, T := ChainRuns(w, evs, e), Interval(e.mTask), RunEnd(w, evs).mCurrentTick;
            && (forall k | 0 <= k < |runs| :: runs[0] + k * H <= runs[k])
            && |runs| <= 1 + (T - runs[0]) / H
            && T < runs[0] + (|runs| - 1) * (H + gap - 1) + H
  {
    var runs := ChainRuns(w, evs, e);
    ChainRunsAreSpaced(w, evs, e, gap);
    RunsAreNotLate(w, evs, e, gap);
    assert runs[|runs| - 1] in runs;
    SpacedAtLeast(runs, Interval(e.mTask), gap, RunEnd(w, evs).mCurrentTick);
    SpacedAtMost(runs, Interval(e.mTask), gap, RunEnd(w, evs).mCurrentTick);
  }

  /** Every run is at a cached tick that has been reached. */
  lemma {:induction false} RunsAreNotLate<S>(w: World<S>, evs: seq<Event<S>>, e: JobElement<S>, gap: nat)
    requires Paced(w.mCurrentTick, evs, gap)
    ensures w.mCurrentTick <= RunEnd(w, evs).mCurrentTick
    ensures forall c | c in ChainRuns(w, evs, e) :: c <= RunEnd(w, evs).mCurrentTick
    decreases |evs|
  {
    if evs != [] {
      CallKeepsTick(w, evs[0]);
      RunsAreNotLate(Step(w, evs[0]), evs[1..], NextLink(w, evs[0], e), gap);
    }
  }
}
