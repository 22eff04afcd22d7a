/** How many timers a session has: as many of each kind as LoginDone calls started. */
module TimerChains {
  import opened Ticks
  import opened JobQueue
  import opened Tally
  import opened SessionTimers
  import opened ServerModel
  import opened Lifetimes

  /** The call starts both timers of `s`: it is still connected after its own send. */
  ghost predicate StartsTimers<S>(w: World<S>, ev: Event<S>, s: S) {
    ev.LoginDone? && ev.s == s && s in w.sessions && IsConnected(AfterSendRequest(w, s, ev.fits, ev.lingerOk), s)
  }

  ghost function StartsAfter<S>(w: World<S>, ev: Event<S>, s: S, k: nat): nat {
    if ev.Accept? && ev.s == s then 0 else if StartsTimers(w, ev, s) then k + 1 else k
  }

  /** LoginDone calls that started the timers of `s` since it was accepted, if there
      were `k` of them before the run. */
  ghost function Starts<S>(w: World<S>, evs: seq<Event<S>>, s: S, k: nat): nat
    decreases |evs|
  {
    if evs == [] then k else Starts(Step(w, evs[0]), evs[1..], s, StartsAfter(w, evs[0], s, k))
  }

  /** Exactly `k` timers of kind `t` while connected, at most `k` afterwards. */
  ghost predicate HasChain<S>(w: World<S>, s: S, t: Task, k: nat) {
    s in w.sessions ==> Timers(w.queue, s, t) <= k && (IsConnected(w, s) ==> Timers(w.queue, s, t) == k)
  }

  /** The same of both kinds. */
  ghost predicate HasChains<S>(w: World<S>, s: S, k: nat) {
    forall t :: HasChain(w, s, t, k)
  }

  ghost function LaterTimerWeight<S>(s: S, t: Task, now: Tick): JobElement<S> -> nat {
    (e: JobElement<S>) => if e.mOwner == s && e.mTask == t && now < e.mExecutionTick then 1 else 0
  }

  ghost function DueTimerWeight<S>(s: S, t: Task, now: Tick): JobElement<S> -> nat {
    (e: JobElement<S>) => if e.mOwner == s && e.mTask == t && e.mExecutionTick <= now then 1 else 0
  }

  lemma DisconnectedTimersShrink<S>(now: Tick, connected: set<S>, m: multiset<JobElement<S>>, s: S, t: Task)
    requires s !in connected
    ensures Timers(AfterTasks(now, connected, m), s, t) <= Timers(m, s, t)
  {
    var image := SuccessorOf(now, connected);
    forall e | e in m ensures Total(image(e), TimerWeight(s, t)) == LaterTimerWeight(s, t, now)(e) {
      SuccessorWeighs(now, connected, e, TimerWeight(s, t));
    }
    TotalOfReplaced(m, image, TimerWeight(s, t), LaterTimerWeight(s, t, now));
    TotalOfSum(m, LaterTimerWeight(s, t, now), DueTimerWeight(s, t, now), TimerWeight(s, t));
  }

  lemma NoTimersIfNotOwned<S>(m: multiset<JobElement<S>>, s: S, t: Task)
    requires forall e | e in m :: e.mOwner != s
    ensures Timers(m, s, t) == 0
  {
    TotalIsZero(m, TimerWeight(s, t));
  }

  lemma ArmedTimers<S>(w: World<S>, x: S, t: Task, s: S, u: Task)
    requires x in w.sessions
    ensures Timers(Armed(w, x, t).queue, s, u)
         == Timers(w.queue, s, u) + (if IsConnected(w, x) && x == s && t == u then 1 else 0)
  {
    TotalOfOneMore(w.queue, TimerAt(w.mCurrentTick, x, t), TimerWeight(s, u));
  }

  lemma LoginDoneTimers<S>(w: World<S>, ev: Event<S>, s: S, t: Task)
    requires ev.LoginDone? && ev.s in w.sessions
    ensures Timers(Step(w, ev).queue, s, t) == Timers(w.queue, s, t) + (if StartsTimers(w, ev, s) then 1 else 0)
    ensures IsConnected(Step(w, ev), s) ==> IsConnected(w, s) && (ev.s == s ==> StartsTimers(w, ev, s))
  {
    var x := ev.s;
    var sent := AfterSendRequest(w, x, ev.fits, ev.lingerOk);
    var marked := sent.(sessions := sent.sessions[x := sent.sessions[x].(mLogon := true)]);
    ArmedTimers(marked, x, OnTick, s, t);
    ArmedTimers(Armed(marked, x, OnTick), x, OnDbUpdate, s, t);
  }

  lemma CallKeepsTimers<S>(w: World<S>, ev: Event<S>, s: S)
    requires !ev.LoginDone? && !ev.DoTasks? && (ev.Accept? ==> ev.s != s)
    ensures Step(w, ev).queue == w.queue
    ensures s in Step(w, ev).sessions ==> s in w.sessions
    ensures IsConnected(Step(w, ev), s) ==> IsConnected(w, s)
  {
    if !ev.Accept? && !ev.CollectGarbage? && ev.s in w.sessions {
      CallOnlyLetsGo(w, ev);
    }
  }

  lemma DoTasksKeepsChain<S>(w: World<S>, now: Tick, s: S, t: Task, k: nat)
    requires HasChain(w, s, t, k)
    ensures HasChain(AfterDoTasks(w, now), s, t, k)
  {
    if IsConnected(w, s) {
      ConnectedKeepsTimers(now, Connected(w), w.queue, s);
    } else {
      DisconnectedTimersShrink(now, Connected(w), w.queue, s, t);
    }
  }

  lemma StepKeepsChain<S>(w: World<S>, ev: Event<S>, s: S, t: Task, k: nat)
    requires NothingDangles(w) && Enabled(w, ev) && HasChain(w, s, t, k)
    ensures HasChain(Step(w, ev), s, t, StartsAfter(w, ev, s, k))
  {
    if ev.LoginDone? {
      LoginDoneTimers(w, ev, s, t);
    } else if ev.DoTasks? {
      DoTasksKeepsChain(w, ev.now, s, t, k);
    } else if ev.Accept? && ev.s == s {
      NoTimersIfNotOwned(w.queue, s, t);
    } else {
      CallKeepsTimers(w, ev, s);
    }
  }

  /** Timer chains: over every run, a connected session that started its timers through
      k LoginDone calls has exactly k queued OnTick and k queued OnDbUpdate elements, and
      a disconnected one at most k of each. */
  lemma {:induction false} RunKeepsChains<S>(w: World<S>, evs: seq<Event<S>>, s: S, k: nat)
    requires Inv(w) && IsRun(w, evs) && HasChains(w, s, k)
    ensures HasChains(RunEnd(w, evs), s, Starts(w, evs, s, k))
    decreases |evs|
  {
    if evs != [] {
      StepKeepsInv(w, evs[0]);
      forall t ensures HasChain(Step(w, evs[0]), s, t, StartsAfter(w, evs[0], s, k)) {
        StepKeepsChain(w, evs[0], s, t, k);
      }
      RunKeepsChains(Step(w, evs[0]), evs[1..], s, StartsAfter(w, evs[0], s, k));
    }
  }

  /** A login of a connected session starts its timers exactly when its answer fits the
      send buffer or the disconnect that an overflow causes fails. */
  lemma LoginStartsTimersIff<S>(w: World<S>, s: S, fits: bool, lingerOk: bool)
    requires IsConnected(w, s)
    ensures var w' := Step(w, LoginDone(s, fits, lingerOk));
            if fits || !lingerOk then
              && IsConnected(w', s)
              && Timers(w'.queue, s, OnTick) == Timers(w.queue, s, OnTick) + 1
              && Timers(w'.queue, s, OnDbUpdate) == Timers(w.queue, s, OnDbUpdate) + 1
            else
              !IsConnected(w', s) && w'.queue == w.queue
  {
    LoginDoneTimers(w, LoginDone(s, fits, lingerOk), s, OnTick);
    LoginDoneTimers(w, LoginDone(s, fits, lingerOk), s, OnDbUpdate);
  }
}
