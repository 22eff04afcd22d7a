/** Runs from start-up that reach the situations in which the server goes wrong. */
module Witnesses {
  import opened Ticks
  import opened JobQueue
  import opened Tally
  import opened TaskLoop
  import opened SessionTimers
  import opened ServerModel
  import opened Lifetimes

  // ---------- A socket number used again ----------

  /** A client whose session is disconnected but not collected yet, and a new client that
      is given the same socket number. */
  function SocketReuse<S>(s1: S, s2: S, k: int): seq<Event<S>> {
    [Accept(s1, k, true, true)] + [Disconnect(s1, true)] + [Accept(s2, k, true, true)]
  }

  /** The new session is connected and not listed, and never freed whatever follows. */
  lemma SocketReuseLeaks<S>(now: Tick, s1: S, s2: S, k: int, later: seq<Event<S>>)
    requires s1 != s2
    ensures IsRun(Boot(now), SocketReuse(s1, s2, k))
    ensures var w := RunEnd(Boot(now), SocketReuse(s1, s2, k));
            && !IsConnected(w, s1) && k in w.clients && w.clients[k] == s1
            && IsConnected(w, s2) && !Listed(w, s2)
            && (IsRun(w, later) ==> s2 in RunEnd(w, later).sessions && !Listed(RunEnd(w, later), s2))
  {
    var a, b, c := Accept(s1, k, true, true), Disconnect(s1, true), Accept(s2, k, true, true);
    RunOfOneMore(Boot(now), [], a);
    assert [] + [a] == [a];
    RunOfOneMore(Boot(now), [a], b);
    RunOfOneMore(Boot(now), [a] + [b], c);
    var w := RunEnd(Boot(now), SocketReuse(s1, s2, k));
    ReachableStatesAreSafe(now, SocketReuse(s1, s2, k));
    if IsRun(w, later) {
      UnlistedIsNeverFreed(w, later, s2);
    }
  }

  // ---------- The loop that does not end ----------

  function LoggedIn<S>(s: S, socket: int): seq<Event<S>> {
    [Accept(s, socket, true, true)] + [LoginDone(s, true, true)]
  }

  lemma LoginIsReached<S>(s: S, socket: int, t0: Tick)
    ensures IsRun(Boot(t0), LoggedIn(s, socket))
    ensures var w := RunEnd(Boot(t0), LoggedIn(s, socket));
            && w.mCurrentTick == t0 && Connected(w) == {s}
            && w.queue == multiset{TimerAt(t0, s, OnTick)} + multiset{TimerAt(t0, s, OnDbUpdate)}
  {
    var a, b := Accept(s, socket, true, true), LoginDone(s, true, true);
    RunOfOneMore(Boot(t0), [], a);
    assert [] + [a] == [a];
    RunOfOneMore(Boot(t0), [a], b);
    IsAccept(Boot(t0), s, socket, true, true);
    IsLoginDone(RunEnd(Boot(t0), [a]), s, true, true);
    hide Step;
    assert RunEnd(Boot(t0), LoggedIn(s, socket)) == Step(RunEnd(Boot(t0), [a]), b);
  }

  /** After a login the session has a timer of one second and one of a minute, and the next
      DoTasks returns exactly when neither is due and armed again past 32 bits. */
  lemma AfterLoginReturnsIff<S>(s: S, socket: int, t0: Tick, now: Tick)
    ensures IsRun(Boot(t0), LoggedIn(s, socket))
    ensures var w := RunEnd(Boot(t0), LoggedIn(s, socket));
            Enabled(w, DoTasks(now)) <==>
              && (DueTick(t0, 1000) <= now ==> now + 1000 < 0x1_0000_0000)
              && (DueTick(t0, 60_000) <= now ==> now + 60_000 < 0x1_0000_0000)
  {
    LoginIsReached(s, socket, t0);
    hide IsRun, RunEnd;
    var w := RunEnd(Boot(t0), LoggedIn(s, socket));
    assert TimerAt(t0, s, OnTick) in w.queue && TimerAt(t0, s, OnDbUpdate) in w.queue;
  }

  const LOGIN_TICK: Tick := TICK_MODULUS - PLAYER_DB_UPDATE_INTERVAL - PLAYER_HEART_BEAT / 2
  const LAST_TICK: Tick := TICK_MODULUS - 2 * PLAYER_HEART_BEAT
  const STUCK_TICK: Tick := TICK_MODULUS - PLAYER_HEART_BEAT

  /** A login a minute before the clock wraps, and one DoTasks two seconds before. */
  function UpToLastBeat<S>(s: S, socket: int): seq<Event<S>> {
    LoggedIn(s, socket) + [DoTasks(LAST_TICK)]
  }

  /** The heartbeat due one second before the wrap, and the first database update, which
      is still to come. */
  ghost function LastTimers<S>(s: S): multiset<JobElement<S>> {
    multiset{JobElement(s, OnTick, STUCK_TICK)} + multiset{JobElement(s, OnDbUpdate, TICK_MODULUS - PLAYER_HEART_BEAT / 2)}
  }

  lemma AfterTasksOfTwo<S>(now: Tick, connected: set<S>, x: JobElement<S>, y: JobElement<S>)
    ensures AfterTasks(now, connected, multiset{x} + multiset{y}) == Successor(now, connected, x) + Successor(now, connected, y)
  {
    var image := SuccessorOf(now, connected);
    ReplacedOfOneMore(multiset{x}, y, image);
    assert multiset{} + multiset{x} == multiset{x};
    ReplacedOfOneMore(multiset{}, x, image);
  }

  lemma LastBeatRuns<S>(s: S)
    ensures AfterTasks(LAST_TICK, {s}, multiset{TimerAt(LOGIN_TICK, s, OnTick)} + multiset{TimerAt(LOGIN_TICK, s, OnDbUpdate)})
         == LastTimers(s)
  {
    AfterTasksOfTwo(LAST_TICK, {s}, TimerAt(LOGIN_TICK, s, OnTick), TimerAt(LOGIN_TICK, s, OnDbUpdate));
  }

  lemma LastBeatIsReached<S>(s: S, socket: int)
    ensures IsRun(Boot(LOGIN_TICK), UpToLastBeat(s, socket))
    ensures var w := RunEnd(Boot(LOGIN_TICK), UpToLastBeat(s, socket));
            Connected(w) == {s} && w.queue == LastTimers(s)
  {
    LoginIsReached(s, socket, LOGIN_TICK);
    AfterLoginReturnsIff(s, socket, LOGIN_TICK, LAST_TICK);
    LastBeatRuns(s);
    hide AfterTasks, LastTimers, TimerAt, LoggedIn, WrapFree;
    var w := RunEnd(Boot(LOGIN_TICK), LoggedIn(s, socket));
    RunOfOneMore(Boot(LOGIN_TICK), LoggedIn(s, socket), DoTasks(LAST_TICK));
    DoTasksConnectsNobody(w, LAST_TICK);
  }

  lemma DoTasksConnectsNobody<S>(w: World<S>, now: Tick)
    ensures Connected(Step(w, DoTasks(now))) == Connected(w)
    ensures Step(w, DoTasks(now)).queue == AfterTasks(now, Connected(w), w.queue)
  {
  }

  lemma LastTimersTop<S>(s: S, q: seq<JobElement<S>>)
    requires IsHeap(q) && multiset(q) == LastTimers(s)
    ensures Guard(STUCK_TICK, q) && q[0] == JobElement(s, OnTick, STUCK_TICK)
    ensures Removed(STUCK_TICK, {s}, q[0]) != q[0]
  {
    var beat := JobElement(s, OnTick, STUCK_TICK);
    assert beat in multiset(q);
    RootRunsFirst(q);
    assert q[0] in multiset(q) && !RunsLater(q[0], beat);
    assert DueTick(STUCK_TICK, PLAYER_HEART_BEAT) == 0;
  }

  /** Every iteration on those timers runs the heartbeat and pops what it has just pushed. */
  lemma {:induction false} StuckForEver<S>(s: S, q: seq<JobElement<S>>, n: nat)
    requires IsHeap(q) && multiset(q) == LastTimers(s)
    ensures var end := TimerLoop(STUCK_TICK, {s}, q, n);
            && multiset(end) == LastTimers(s)
            && Guard(STUCK_TICK, end)
            && end[0] == JobElement(s, OnTick, STUCK_TICK)
    decreases n
  {
    hide IsHeap, LastTimers, TimerBody, Removed;
    LastTimersTop(s, q);
    if n > 0 {
      EarlierRearmChangesNothing(STUCK_TICK, {s}, q);
      StuckForEver(s, TimerBody(STUCK_TICK, {s}, q), n - 1);
    }
  }

  /** A reachable state, no due tick having wrapped on the way, from which DoTasks one
      second before the clock wraps does not return: whatever heap holds the timers, every
      iteration runs the heartbeat and leaves the same timers as before. */
  lemma HeartbeatStuckBeforeWrap<S>(s: S, socket: int, q: seq<JobElement<S>>)
    requires IsHeap(q) && multiset(q) == RunEnd(Boot(LOGIN_TICK), UpToLastBeat(s, socket)).queue
    ensures IsRun(Boot(LOGIN_TICK), UpToLastBeat(s, socket))
    ensures var w := RunEnd(Boot(LOGIN_TICK), UpToLastBeat(s, socket));
            && IsConnected(w, s)
            && !Enabled(w, DoTasks(STUCK_TICK))
            && !Terminates(STUCK_TICK, Connected(w), q)
            && forall n: nat ::
                 var end := TimerLoop(STUCK_TICK, Connected(w), q, n);
                 multiset(end) == w.queue && Guard(STUCK_TICK, end) && end[0].mTask == OnTick
  {
    LastBeatIsReached(s, socket);
    hide IsHeap, LastTimers, UpToLastBeat, TimerBody, WrapFree;
    var w := RunEnd(Boot(LOGIN_TICK), UpToLastBeat(s, socket));
    assert s in Connected(w);
    forall n: nat
      ensures var end := TimerLoop(STUCK_TICK, Connected(w), q, n);
              multiset(end) == w.queue && Guard(STUCK_TICK, end) && end[0].mTask == OnTick
    {
      StuckForEver(s, q, n);
    }
    DoTasksReturnsIffWrapFree(STUCK_TICK, {s}, q);
  }
}
