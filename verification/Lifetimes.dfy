/** What the reference counts are for: over every run nothing refers to a freed session,
    and a disconnected session is freed once nothing refers to it. */
module Lifetimes {
  import opened Ticks
  import opened JobQueue
  import opened Tally
  import opened TaskLoop
  import opened SessionTimers
  import opened ServerModel

  /** Timers, outstanding I/O and list entries all name live sessions. */
  ghost predicate NothingDangles<S>(w: World<S>) {
    && (forall e | e in w.queue :: e.mOwner in w.sessions)
    && (forall s | s in w.recvs :: s in w.sessions)
    && (forall s | s in w.sends :: s in w.sessions)
    && (forall k | k in w.clients :: w.clients[k] in w.sessions && w.sessions[w.clients[k]].mSocket == k)
  }

  /** What refers to `s`: its timers, its receives and its sends. */
  ghost function References<S>(w: World<S>, s: S): nat {
    Owned(w.queue, s) + w.recvs[s] + w.sends[s]
  }

  ghost predicate CountsAgree<S>(w: World<S>) {
    forall s | s in w.sessions :: w.sessions[s].mRefCount == References(w, s)
  }

  ghost predicate Inv<S>(w: World<S>) {
    NothingDangles(w) && CountsAgree(w)
  }

  // ---------- Every step keeps it ----------

  lemma AddReceive<S>(w: World<S>, s: S)
    requires Inv(w) && s in w.sessions
    ensures Inv(AddRefs(w, s, 1).(recvs := w.recvs + multiset{s}))
  {
  }

  lemma AddSend<S>(w: World<S>, s: S)
    requires Inv(w) && s in w.sessions
    ensures Inv(AddRefs(w, s, 1).(sends := w.sends + multiset{s}))
  {
  }

  lemma ReleasesKeepOwners<S>(w: World<S>, s: S)
    requires NothingDangles(w) && s in w.sessions
    ensures NothingDangles(RecvReleased(w, s)) && NothingDangles(SendReleased(w, s))
  {
  }

  lemma RecvReleaseKeepsCounts<S>(w: World<S>, s: S)
    requires CountsAgree(w) && s in w.sessions && s in w.recvs
    ensures CountsAgree(RecvReleased(w, s))
  {
    var w' := RecvReleased(w, s);
    forall x | x in w'.sessions ensures w'.sessions[x].mRefCount == References(w', x) {
      assert w.sessions[x].mRefCount == References(w, x);
      assert w'.recvs[x] == if x == s then w.recvs[x] - 1 else w.recvs[x];
    }
  }

  lemma RecvReleaseKeeps<S>(w: World<S>, s: S)
    requires Inv(w) && s in w.sessions && s in w.recvs
    ensures Inv(RecvReleased(w, s))
  {
    RecvReleaseKeepsCounts(w, s);
    ReleasesKeepOwners(w, s);
  }

  lemma SendReleaseKeepsCounts<S>(w: World<S>, s: S)
    requires CountsAgree(w) && s in w.sessions && s in w.sends
    ensures CountsAgree(SendReleased(w, s))
  {
    var w' := SendReleased(w, s);
    forall x | x in w'.sessions ensures w'.sessions[x].mRefCount == References(w', x) {
      assert w.sessions[x].mRefCount == References(w, x);
      assert w'.sends[x] == if x == s then w.sends[x] - 1 else w.sends[x];
    }
  }

  lemma SendReleaseKeeps<S>(w: World<S>, s: S)
    requires Inv(w) && s in w.sessions && s in w.sends
    ensures Inv(SendReleased(w, s))
  {
    SendReleaseKeepsCounts(w, s);
    ReleasesKeepOwners(w, s);
  }

  lemma ArmedKeepsCounts<S>(w: World<S>, s: S, t: Task)
    requires CountsAgree(w) && s in w.sessions
    ensures CountsAgree(Armed(w, s, t))
  {
    var w' := Armed(w, s, t);
    if IsConnected(w, s) {
      forall x | x in w'.sessions ensures w'.sessions[x].mRefCount == References(w', x) {
        OwnedOfOneMore(w.queue, TimerAt(w.mCurrentTick, s, t), x);
        assert w.sessions[x].mRefCount == References(w, x);
      }
    }
  }

  lemma ArmedKeepsOwners<S>(w: World<S>, s: S, t: Task)
    requires NothingDangles(w) && s in w.sessions
    ensures NothingDangles(Armed(w, s, t)) && Armed(w, s, t).sessions.Keys == w.sessions.Keys
  {
    var w' := Armed(w, s, t);
    forall e | e in w'.queue ensures e.mOwner in w'.sessions {
      assert e in w.queue || e.mOwner == s;
    }
  }

  lemma ArmedKeeps<S>(w: World<S>, s: S, t: Task)
    requires Inv(w) && s in w.sessions
    ensures Inv(Armed(w, s, t)) && Armed(w, s, t).sessions.Keys == w.sessions.Keys
  {
    ArmedKeepsCounts(w, s, t);
    ArmedKeepsOwners(w, s, t);
  }

  /** Flags play no part in it. */
  lemma FlagsKeep<S>(w: World<S>, s: S, connected: bool, logon: bool)
    requires Inv(w) && s in w.sessions
    ensures Inv(w.(sessions := w.sessions[s := w.sessions[s].(mConnected := connected, mLogon := logon)]))
  {
  }

  lemma DisconnectKeeps<S>(w: World<S>, s: S, lingerOk: bool)
    requires Inv(w) && s in w.sessions
    ensures Inv(AfterDisconnect(w, s, lingerOk)) && AfterDisconnect(w, s, lingerOk).sessions.Keys == w.sessions.Keys
  {
    FlagsKeep(w, s, false, w.sessions[s].mLogon);
  }

  lemma ReceiveOrDisconnectKeeps<S>(w: World<S>, s: S, recvOk: bool, lingerOk: bool)
    requires Inv(w) && s in w.sessions
    ensures Inv(ReceiveOrDisconnect(w, s, recvOk, lingerOk))
  {
    AddReceive(w, s);
    DisconnectKeeps(w, s, lingerOk);
  }

  lemma CreatedKeepsCounts<S>(w: World<S>, s: S, socket: int)
    requires Inv(w) && s !in w.sessions
    ensures CountsAgree(Created(w, s, socket))
  {
    NotOwnedIff(w.queue, s);
    var w' := Created(w, s, socket);
    forall x | x in w'.sessions ensures w'.sessions[x].mRefCount == References(w', x) {
      assert x != s ==> w.sessions[x].mRefCount == References(w, x);
    }
  }

  lemma CreatedKeepsOwners<S>(w: World<S>, s: S, socket: int)
    requires NothingDangles(w) && s !in w.sessions
    ensures NothingDangles(Created(w, s, socket))
  {
  }

  lemma CreatedKeeps<S>(w: World<S>, s: S, socket: int)
    requires Inv(w) && s !in w.sessions
    ensures Inv(Created(w, s, socket))
  {
    CreatedKeepsCounts(w, s, socket);
    CreatedKeepsOwners(w, s, socket);
  }

  lemma LoginDoneKeeps<S>(w: World<S>, s: S, fits: bool, lingerOk: bool)
    requires Inv(w) && s in w.sessions
    ensures Inv(AfterLoginDone(w, s, fits, lingerOk))
  {
    DisconnectKeeps(w, s, lingerOk);
    var sent := AfterSendRequest(w, s, fits, lingerOk);
    FlagsKeep(sent, s, sent.sessions[s].mConnected, true);
    var marked := sent.(sessions := sent.sessions[s := sent.sessions[s].(mLogon := true)]);
    ArmedKeeps(marked, s, OnTick);
    ArmedKeeps(Armed(marked, s, OnTick), s, OnDbUpdate);
  }

  lemma DoTasksKeepsCounts<S>(w: World<S>, now: Tick)
    requires CountsAgree(w)
    ensures CountsAgree(AfterDoTasks(w, now))
  {
    var w' := AfterDoTasks(w, now);
    forall s | s in w'.sessions ensures w'.sessions[s].mRefCount == References(w', s) {
      assert w.sessions[s].mRefCount == References(w, s);
      if w.sessions[s].mConnected {
        ConnectedKeepsTimers(now, Connected(w), w.queue, s);
      } else {
        DisconnectedLosesDue(now, Connected(w), w.queue, s);
      }
    }
  }

  lemma DoTasksKeepsOwners<S>(now: Tick, connected: set<S>, m: multiset<JobElement<S>>, live: set<S>)
    requires forall e | e in m :: e.mOwner in live
    ensures forall e | e in AfterTasks(now, connected, m) :: e.mOwner in live
  {
    QueuedAfterTasks(now, connected, m);
    forall x | x in AfterTasks(now, connected, m) ensures x.mOwner in live {
      var e :| e in m && x in Successor(now, connected, e);
      assert x.mOwner == e.mOwner;
    }
  }

  lemma DoTasksKeeps<S>(w: World<S>, now: Tick)
    requires Inv(w)
    ensures Inv(AfterDoTasks(w, now))
  {
    DoTasksKeepsCounts(w, now);
    DoTasksKeepsOwners(now, Connected(w), w.queue, w.sessions.Keys);
    assert AfterDoTasks(w, now).sessions.Keys == w.sessions.Keys;
  }

  lemma CollectKeeps<S>(w: World<S>)
    requires Inv(w)
    ensures Inv(AfterCollect(w))
  {
    var w' := AfterCollect(w);
    forall s | s in Garbage(w) ensures s !in w.recvs && s !in w.sends && forall e | e in w.queue :: e.mOwner != s {
      NotOwnedIff(w.queue, s);
    }
    forall k | k in w'.clients
      ensures w'.clients[k] in w'.sessions && w'.sessions[w'.clients[k]].mSocket == k
    {
    }
  }

  lemma StepKeepsInv<S>(w: World<S>, ev: Event<S>)
    requires Inv(w) && Enabled(w, ev)
    ensures Inv(Step(w, ev))
  {
    match ev
    case Accept(s, socket, recvOk, lingerOk) =>
      CreatedKeeps(w, s, socket);
      ReceiveOrDisconnectKeeps(Created(w, s, socket), s, recvOk, lingerOk);
    case PostRecv(s, _) => AddReceive(w, s);
    case Disconnect(s, lingerOk) => DisconnectKeeps(w, s, lingerOk);
    case SendRequest(s, _, lingerOk) => DisconnectKeeps(w, s, lingerOk);
    case SendFlush(s, _, _) => AddSend(w, s);
    case RecvCompletion(s, error, recvOk, lingerOk) =>
      RecvReleaseKeeps(w, s);
      ReceiveOrDisconnectKeeps(RecvReleased(w, s), s, recvOk && !error, lingerOk);
    case SendCompletion(s, _, lingerOk) =>
      SendReleaseKeeps(w, s);
      DisconnectKeeps(SendReleased(w, s), s, lingerOk);
    case LoginDone(s, fits, lingerOk) => LoginDoneKeeps(w, s, fits, lingerOk);
    case DoTasks(now) => DoTasksKeeps(w, now);
    case CollectGarbage => CollectKeeps(w);
  }

  ghost function Boot<S>(now: Tick): World<S> {
    World(now, multiset{}, map[], map[], multiset{}, multiset{})
  }

  /** In every reachable state each session's count is exactly the number of its queued
      timers, outstanding receives and outstanding sends, and all of those, as well as
      the client list, name sessions that have not been freed. */
  lemma {:induction false} RunKeepsInv<S>(w: World<S>, evs: seq<Event<S>>)
    requires Inv(w) && IsRun(w, evs)
    ensures Inv(RunEnd(w, evs))
    decreases |evs|
  {
    if evs != [] {
      StepKeepsInv(w, evs[0]);
      RunKeepsInv(Step(w, evs[0]), evs[1..]);
    }
  }

  lemma ReachableStatesAreSafe<S>(now: Tick, evs: seq<Event<S>>)
    requires IsRun(Boot(now), evs)
    ensures Inv(RunEnd(Boot(now), evs))
  {
    RunKeepsInv(Boot(now), evs);
  }

  // ---------- Between the iterations of DoTasks ----------

  /** The count of `s` after at most `n` iterations that it enters with `count`: a task of
      a connected owner takes a reference before the loop gives its own back. */
  ghost function CountAfter<S>(now: Tick, connected: set<S>, q: seq<JobElement<S>>, n: nat, s: S, count: int): int
    decreases n
  {
    if n == 0 || !Guard(now, q) then count
    else CountAfter(now, connected, TimerBody(now, connected, q), n - 1, s,
                    count - (if q[0].mOwner == s && s !in connected then 1 else 0))
  }

  lemma {:induction false} LoopKeepsBalance<S>(now: Tick, connected: set<S>, q: seq<JobElement<S>>, n: nat, s: S, count: int)
    requires IsHeap(q)
    ensures var end := TimerLoop(now, connected, q, n);
            && IsHeap(end)
            && CountAfter(now, connected, q, n, s, count) - Owned(multiset(end), s) == count - Owned(multiset(q), s)
    decreases n
  {
    hide IsHeap, TimerBody, Owned;
    if n > 0 && Guard(now, q) {
      TimerBodyOwned(now, connected, q, s);
      var lost := if q[0].mOwner == s && s !in connected then 1 else 0;
      LoopKeepsBalance(now, connected, TimerBody(now, connected, q), n - 1, s, count - lost);
    }
  }

  lemma {:induction false} LoopKeepsOwners<S>(now: Tick, connected: set<S>, q: seq<JobElement<S>>, n: nat, live: set<S>)
    requires IsHeap(q) && forall e | e in q :: e.mOwner in live
    ensures forall e | e in TimerLoop(now, connected, q, n) :: e.mOwner in live
    decreases n
  {
    hide IsHeap, TimerBody;
    if n > 0 && Guard(now, q) {
      TimerBodyRemoves(now, connected, q);
      TimerBodyOwners(now, connected, q, live);
      LoopKeepsOwners(now, connected, TimerBody(now, connected, q), n - 1, live);
    }
  }

  /** At every loop boundary of a DoTasks call on a reachable state, whether or not due
      ticks wrap and whether or not the call ever returns, each count is the number of
      queued timers and outstanding I/O, the queue names live sessions only, and the
      owner of the task about to run is counted at least once. */
  lemma LoopBoundariesAreSafe<S>(w: World<S>, now: Tick, q: seq<JobElement<S>>, n: nat)
    requires Inv(w) && IsHeap(q) && multiset(q) == w.queue
    ensures var end := TimerLoop(now, Connected(w), q, n);
            && (forall s | s in w.sessions ::
                  CountAfter(now, Connected(w), q, n, s, w.sessions[s].mRefCount)
                  == Owned(multiset(end), s) + w.recvs[s] + w.sends[s])
            && (forall e | e in end :: e.mOwner in w.sessions)
            && (Guard(now, end) ==>
                  var s := end[0].mOwner;
                  CountAfter(now, Connected(w), q, n, s, w.sessions[s].mRefCount) >= 1)
  {
    var end := TimerLoop(now, Connected(w), q, n);
    forall s | s in w.sessions
      ensures CountAfter(now, Connected(w), q, n, s, w.sessions[s].mRefCount)
           == Owned(multiset(end), s) + w.recvs[s] + w.sends[s]
    {
      LoopKeepsBalance(now, Connected(w), q, n, s, w.sessions[s].mRefCount);
      assert w.sessions[s].mRefCount == References(w, s);
    }
    forall e | e in q ensures e.mOwner in w.sessions.Keys {
      assert e in w.queue;
    }
    LoopKeepsOwners(now, Connected(w), q, n, w.sessions.Keys);
    if Guard(now, end) {
      OwnerHasTimer(end);
      assert end[0] in end;
    }
  }

  // ---------- What the collector frees ----------

  /** The client list's entry for the session's socket number is the session. */
  ghost predicate Listed<S>(w: World<S>, s: S) {
    s in w.sessions && w.sessions[s].mSocket in w.clients && w.clients[w.sessions[s].mSocket] == s
  }

  lemma EntryIsListed<S>(w: World<S>, k: int)
    requires NothingDangles(w) && k in w.clients
    ensures Listed(w, w.clients[k]) && w.sessions[w.clients[k]].mSocket == k
  {
  }

  lemma GarbageIsListed<S>(w: World<S>, s: S)
    requires NothingDangles(w) && s in w.sessions
    ensures s in Garbage(w) <==> Listed(w, s) && !w.sessions[s].mConnected && w.sessions[s].mRefCount == 0
  {
  }

  /** CollectGarbage frees exactly the listed sessions that are disconnected and that no
      timer and no outstanding I/O refers to, and touches no other. */
  lemma CollectFreesExactlyUnreferenced<S>(w: World<S>, s: S)
    requires Inv(w) && s in w.sessions
    ensures s !in Step(w, CollectGarbage).sessions
       <==> (&& Listed(w, s)
             && !IsConnected(w, s)
             && (forall e | e in w.queue :: e.mOwner != s)
             && s !in w.recvs
             && s !in w.sends)
    ensures s in Step(w, CollectGarbage).sessions ==> Step(w, CollectGarbage).sessions[s] == w.sessions[s]
  {
    NotOwnedIff(w.queue, s);
    GarbageIsListed(w, s);
    assert w.sessions[s].mRefCount == References(w, s);
    assert References(w, s) == 0 <==> Owned(w.queue, s) == 0 && s !in w.recvs && s !in w.sends;
    assert s !in Step(w, CollectGarbage).sessions <==> s in Garbage(w);
  }

  /** A session is listed unless an older one with its socket number still was. */
  lemma AcceptListsIffSocketIsFree<S>(w: World<S>, s: S, socket: int, recvOk: bool, lingerOk: bool)
    requires Inv(w) && s !in w.sessions
    ensures Listed(Step(w, Accept(s, socket, recvOk, lingerOk)), s) <==> socket !in w.clients
  {
  }

  lemma CollectKeepsListing<S>(w: World<S>, s: S)
    requires NothingDangles(w) && s in w.sessions && s in AfterCollect(w).sessions
    ensures Listed(AfterCollect(w), s) <==> Listed(w, s)
  {
    forall g | g in Garbage(w) ensures w.clients[w.sessions[g].mSocket] == g {
      GarbageIsListed(w, g);
    }
  }

  lemma CallKeepsSocket<S>(w: World<S>, ev: Event<S>, s: S)
    requires s in w.sessions && !ev.CollectGarbage? && (ev.Accept? ==> ev.s != s)
    ensures s in Step(w, ev).sessions && Step(w, ev).sessions[s].mSocket == w.sessions[s].mSocket
    ensures !ev.Accept? ==> Step(w, ev).clients == w.clients
  {
    if ev.LoginDone? {
      if ev.s in w.sessions {
        assert OnlyTouches(w, AfterLoginDone(w, ev.s, ev.fits, ev.lingerOk), ev.s);
      }
    } else if !ev.Accept? && !ev.DoTasks? && ev.s in w.sessions {
      CallOnlyLetsGo(w, ev);
    }
  }

  /** Nothing but its own collection changes whether a session is listed. */
  lemma StepKeepsListing<S>(w: World<S>, ev: Event<S>, s: S)
    requires NothingDangles(w) && Enabled(w, ev) && s in w.sessions && s in Step(w, ev).sessions
    ensures Listed(Step(w, ev), s) <==> Listed(w, s)
  {
    if ev.CollectGarbage? {
      CollectKeepsListing(w, s);
    } else {
      CallKeepsSocket(w, ev, s);
    }
  }

  /** An unlisted session stays unlisted and is never freed, whatever happens. */
  lemma {:induction false} UnlistedIsNeverFreed<S>(w: World<S>, evs: seq<Event<S>>, s: S)
    requires Inv(w) && IsRun(w, evs) && s in w.sessions && !Listed(w, s)
    ensures s in RunEnd(w, evs).sessions && !Listed(RunEnd(w, evs), s)
    decreases |evs|
  {
    if evs != [] {
      StepKeepsInv(w, evs[0]);
      if evs[0].CollectGarbage? {
        CollectFreesExactlyUnreferenced(w, s);
      } else {
        CallKeepsSocket(w, evs[0], s);
      }
      StepKeepsListing(w, evs[0], s);
      UnlistedIsNeverFreed(Step(w, evs[0]), evs[1..], s);
    }
  }
}
