/** A disconnected session only ever loses references, and loses all its timers by the
    first DoTasks at or past the latest of them. */
module Reclaim {
  import opened Ticks
  import opened JobQueue
  import opened Tally
  import opened SessionTimers
  import opened ServerModel
  import opened Lifetimes

  ghost predicate NeverAccepts<S>(evs: seq<Event<S>>, s: S) {
    forall ev | ev in evs :: ev.Accept? ==> ev.s != s
  }

  /** Every timer of `s` in the second queue is one of the first. */
  ghost predicate NoNewTimers<S>(before: multiset<JobElement<S>>, after: multiset<JobElement<S>>, s: S) {
    forall e | e in after && e.mOwner == s :: e in before
  }

  lemma DisconnectedTimersAfterTasks<S>(now: Tick, connected: set<S>, m: multiset<JobElement<S>>, s: S)
    requires s !in connected
    ensures forall e | e in AfterTasks(now, connected, m) && e.mOwner == s :: e in m && now < e.mExecutionTick
  {
    QueuedAfterTasks(now, connected, m);
    forall x | x in AfterTasks(now, connected, m) && x.mOwner == s ensures x in m && now < x.mExecutionTick {
      var e :| e in m && x in Successor(now, connected, e);
    }
  }

  lemma ArmedShrinks<S>(w: World<S>, x: S, t: Task, s: S)
    requires x in w.sessions && s in w.sessions && !IsConnected(w, s)
    ensures var w' := Armed(w, x, t);
            w'.sessions[s] == w.sessions[s] && NoNewTimers(w.queue, w'.queue, s)
  {
    forall e | e in Armed(w, x, t).queue && e.mOwner == s ensures e in w.queue {
      assert e in w.queue || e == TimerAt(w.mCurrentTick, x, t);
    }
  }

  lemma LoginDoneShrinks<S>(w: World<S>, x: S, fits: bool, lingerOk: bool, s: S)
    requires x in w.sessions && s in w.sessions && !IsConnected(w, s)
    ensures var w' := AfterLoginDone(w, x, fits, lingerOk);
            && !IsConnected(w', s)
            && w'.sessions[s].mRefCount == w.sessions[s].mRefCount
            && NoNewTimers(w.queue, w'.queue, s)
  {
    var sent := AfterSendRequest(w, x, fits, lingerOk);
    var marked := sent.(sessions := sent.sessions[x := sent.sessions[x].(mLogon := true)]);
    assert marked.queue == w.queue && !IsConnected(marked, s);
    ArmedShrinks(marked, x, OnTick, s);
    ArmedShrinks(Armed(marked, x, OnTick), x, OnDbUpdate, s);
  }

  lemma CallShrinks<S>(w: World<S>, ev: Event<S>, s: S)
    requires s in w.sessions && !IsConnected(w, s) && (ev.Accept? ==> ev.s != s)
    requires !ev.DoTasks? && !ev.CollectGarbage?
    ensures s in Step(w, ev).sessions && !IsConnected(Step(w, ev), s)
    ensures Step(w, ev).sessions[s].mRefCount <= w.sessions[s].mRefCount
    ensures NoNewTimers(w.queue, Step(w, ev).queue, s)
  {
    if ev.LoginDone? {
      if ev.s in w.sessions {
        LoginDoneShrinks(w, ev.s, ev.fits, ev.lingerOk, s);
      }
    } else if !ev.Accept? && ev.s in w.sessions {
      CallOnlyLetsGo(w, ev);
    }
  }

  /** No step increases the count of a disconnected session, connects it again or adds
      a timer for it: every increment is guarded by IsConnected. */
  lemma StepShrinks<S>(w: World<S>, ev: Event<S>, s: S)
    requires s in w.sessions && !IsConnected(w, s) && (ev.Accept? ==> ev.s != s)
    ensures var w' := Step(w, ev);
            s in w'.sessions ==>
              && !IsConnected(w', s)
              && w'.sessions[s].mRefCount <= w.sessions[s].mRefCount
              && NoNewTimers(w.queue, w'.queue, s)
    ensures s !in Step(w, ev).sessions ==> ev.CollectGarbage?
  {
    match ev
    case DoTasks(now) => DisconnectedTimersAfterTasks(now, Connected(w), w.queue, s);
    case CollectGarbage =>
    case _ => CallShrinks(w, ev, s);
  }

  lemma {:induction false} FreedStaysFreed<S>(w: World<S>, evs: seq<Event<S>>, s: S)
    requires s !in w.sessions && NeverAccepts(evs, s)
    ensures s !in RunEnd(w, evs).sessions
    decreases |evs|
  {
    if evs != [] {
      assert evs[0] in evs;
      FreedStaysFreed(Step(w, evs[0]), evs[1..], s);
    }
  }

  lemma {:induction false} RunShrinks<S>(w: World<S>, evs: seq<Event<S>>, s: S)
    requires s in w.sessions && !IsConnected(w, s) && NeverAccepts(evs, s)
    ensures var w' := RunEnd(w, evs);
            s in w'.sessions ==>
              && !IsConnected(w', s)
              && w'.sessions[s].mRefCount <= w.sessions[s].mRefCount
              && NoNewTimers(w.queue, w'.queue, s)
    decreases |evs|
  {
    if evs != [] {
      var w1 := Step(w, evs[0]);
      assert evs[0] in evs;
      StepShrinks(w, evs[0], s);
      if s in w1.sessions {
        RunShrinks(w1, evs[1..], s);
      } else {
        FreedStaysFreed(w1, evs[1..], s);
      }
    }
  }

  /** Reclaim: let `s` be disconnected and let the run contain a DoTasks at or past its
      latest timer. From then on no timer names `s`, its count is exactly its outstanding
      I/O, and the collector frees it if and only if it is listed and that I/O is done. */
  lemma ReclaimAfterDisconnect<S>(w: World<S>, first: seq<Event<S>>, now: Tick, rest: seq<Event<S>>, s: S)
    requires Inv(w) && s in w.sessions && !IsConnected(w, s)
    requires IsRun(w, first + ([DoTasks(now)] + rest)) && NeverAccepts(first, s) && NeverAccepts(rest, s)
    requires forall e | e in w.queue && e.mOwner == s :: e.mExecutionTick <= now
    ensures var w' := RunEnd(w, first + ([DoTasks(now)] + rest));
            s in w'.sessions ==>
              && (forall e | e in w'.queue :: e.mOwner != s)
              && w'.sessions[s].mRefCount == w'.recvs[s] + w'.sends[s]
              && (s !in Step(w', CollectGarbage).sessions <==> Listed(w', s) && s !in w'.recvs && s !in w'.sends)
  {
    var tail := [DoTasks(now)] + rest;
    RunSplits(w, first, tail);
    RunKeepsInv(w, first + tail);
    var w1 := RunEnd(w, first);
    var w2 := Step(w1, DoTasks(now));
    var w' := RunEnd(w, first + tail);
    assert tail[0] == DoTasks(now) && tail[1..] == rest;
    assert w' == RunEnd(w2, rest);
    RunShrinks(w, first, s);
    if s in w1.sessions {
      DisconnectedTimersAfterTasks(now, Connected(w1), w1.queue, s);
      RunShrinks(w2, rest, s);
      if s in w'.sessions {
        NotOwnedIff(w'.queue, s);
        CollectFreesExactlyUnreferenced(w', s);
      }
    } else {
      FreedStaysFreed(w1, tail, s);
    }
  }
}
