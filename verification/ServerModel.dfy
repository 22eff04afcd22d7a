/** The client thread as a state machine: one step per call the thread makes on its
    sessions and its scheduler. Timer queues are multisets and DoTasks is one step, which
    `SessionTimers.TimerLoopRefinesSpec` justifies. Outcomes of the operating system are
    parameters of the steps. `S` is the identity of a session object. */
module ServerModel {
  import opened Ticks
  import opened JobQueue
  import opened Tally
  import opened TaskLoop
  import opened SessionTimers

  datatype SessionState = SessionState(mSocket: int, mConnected: bool, mLogon: bool, mRefCount: int)

  /** `sessions` are the live session objects, `clients` is the manager's list of them,
      `recvs` and `sends` the I/O requests the operating system still holds. */
  datatype World<S(==)> = World(
    mCurrentTick: Tick,
    queue: multiset<JobElement<S>>,
    sessions: map<S, SessionState>,
    clients: map<int, S>,
    recvs: multiset<S>,
    sends: multiset<S>)

  datatype Event<S> =
    | Accept(s: S, socket: int, recvOk: bool, lingerOk: bool)
    | PostRecv(s: S, recvOk: bool)
    | Disconnect(s: S, lingerOk: bool)
    | SendRequest(s: S, fits: bool, lingerOk: bool)
    | SendFlush(s: S, hasData: bool, sendOk: bool)
    | RecvCompletion(s: S, error: bool, recvOk: bool, lingerOk: bool)
    | SendCompletion(s: S, error: bool, lingerOk: bool)
    | LoginDone(s: S, fits: bool, lingerOk: bool)
    | DoTasks(now: Tick)
    | CollectGarbage

  // ---------- The session's member functions ----------

  ghost predicate IsConnected<S>(w: World<S>, s: S) {
    s in w.sessions && w.sessions[s].mConnected
  }

  ghost function Connected<S>(w: World<S>): set<S> {
    set s | s in w.sessions && w.sessions[s].mConnected
  }

  /** A call on `s` leaves the other sessions, the client list and who is alive alone. */
  ghost predicate OnlyTouches<S>(w: World<S>, w': World<S>, s: S)
    requires s in w.sessions
  {
    && w'.clients == w.clients
    && w'.mCurrentTick == w.mCurrentTick
    && w'.sessions.Keys == w.sessions.Keys
    && w'.sessions[s].mSocket == w.sessions[s].mSocket
    && forall x | x in w.sessions && x != s :: w'.sessions[x] == w.sessions[x]
  }

  /** A call that arms no timer does not connect `s`, nor count up once it is not. */
  ghost predicate OnlyLetsGo<S>(w: World<S>, w': World<S>, s: S)
    requires s in w.sessions && s in w'.sessions
  {
    && w'.queue == w.queue
    && (w'.sessions[s].mConnected ==> w.sessions[s].mConnected)
    && (!w.sessions[s].mConnected ==> w'.sessions[s].mRefCount <= w.sessions[s].mRefCount)
  }

  ghost function AddRefs<S>(w: World<S>, s: S, d: int): (w': World<S>)
    requires s in w.sessions
    ensures OnlyTouches(w, w', s)
  {
    w.(sessions := w.sessions[s := w.sessions[s].(mRefCount := w.sessions[s].mRefCount + d)])
  }

  ghost function AfterPostRecv<S>(w: World<S>, s: S, recvOk: bool): (w': World<S>)
    requires s in w.sessions
    ensures OnlyTouches(w, w', s) && OnlyLetsGo(w, w', s)
  {
    if IsConnected(w, s) && recvOk then AddRefs(w, s, 1).(recvs := w.recvs + multiset{s}) else w
  }

  /** A failing setsockopt leaves the session connected. */
  ghost function AfterDisconnect<S>(w: World<S>, s: S, lingerOk: bool): (w': World<S>)
    requires s in w.sessions
    ensures OnlyTouches(w, w', s) && OnlyLetsGo(w, w', s)
  {
    if IsConnected(w, s) && lingerOk then w.(sessions := w.sessions[s := w.sessions[s].(mConnected := false)]) else w
  }

  /** A packet that does not fit in the send buffer disconnects its receiver. */
  ghost function AfterSendRequest<S>(w: World<S>, s: S, fits: bool, lingerOk: bool): (w': World<S>)
    requires s in w.sessions
    ensures OnlyTouches(w, w', s) && OnlyLetsGo(w, w', s)
  {
    if fits then w else AfterDisconnect(w, s, lingerOk)
  }

  ghost function AfterSendFlush<S>(w: World<S>, s: S, hasData: bool, sendOk: bool): (w': World<S>)
    requires s in w.sessions
    ensures OnlyTouches(w, w', s) && OnlyLetsGo(w, w', s)
  {
    if IsConnected(w, s) && hasData && sendOk then AddRefs(w, s, 1).(sends := w.sends + multiset{s}) else w
  }

  ghost function TimerAt<S>(now: Tick, s: S, t: Task): JobElement<S> {
    JobElement(s, t, DueTick(now, Interval(t)))
  }

  /** OnTick and OnDbUpdate arm themselves again while connected. */
  ghost function Armed<S>(w: World<S>, s: S, t: Task): (w': World<S>)
    requires s in w.sessions
    ensures OnlyTouches(w, w', s)
  {
    if IsConnected(w, s) then
      AddRefs(w, s, 1).(queue := w.queue + multiset{TimerAt(w.mCurrentTick, s, t)})
    else w
  }

  ghost function AfterLoginDone<S>(w: World<S>, s: S, fits: bool, lingerOk: bool): (w': World<S>)
    requires s in w.sessions
    ensures OnlyTouches(w, w', s)
  {
    var sent := AfterSendRequest(w, s, fits, lingerOk);
    var marked := sent.(sessions := sent.sessions[s := sent.sessions[s].(mLogon := true)]);
    Armed(Armed(marked, s, OnTick), s, OnDbUpdate)
  }

  /** A new session for an accepted socket. The client list keeps an older entry that
      still has the same socket number. */
  ghost function Created<S>(w: World<S>, s: S, socket: int): World<S> {
    w.(sessions := w.sessions[s := SessionState(socket, true, false, 0)],
       clients := if socket in w.clients then w.clients else w.clients[socket := s])
  }

  ghost function ReceiveOrDisconnect<S>(w: World<S>, s: S, recvOk: bool, lingerOk: bool): (w': World<S>)
    requires s in w.sessions
    ensures OnlyTouches(w, w', s) && OnlyLetsGo(w, w', s)
  {
    if recvOk then AfterPostRecv(w, s, true) else AfterDisconnect(w, s, lingerOk)
  }

  /** The completion routines give the request's reference back first. */
  ghost function RecvReleased<S>(w: World<S>, s: S): (w': World<S>)
    requires s in w.sessions
    ensures OnlyTouches(w, w', s) && OnlyLetsGo(w, w', s)
  {
    AddRefs(w, s, -1).(recvs := w.recvs - multiset{s})
  }

  ghost function SendReleased<S>(w: World<S>, s: S): (w': World<S>)
    requires s in w.sessions
    ensures OnlyTouches(w, w', s) && OnlyLetsGo(w, w', s)
  {
    AddRefs(w, s, -1).(sends := w.sends - multiset{s})
  }

  // ---------- Timers of a session ----------

  ghost function OwnedWeight<S>(s: S): JobElement<S> -> nat {
    (e: JobElement<S>) => if e.mOwner == s then 1 else 0
  }

  ghost function DueOwnedWeight<S>(s: S, now: Tick): JobElement<S> -> nat {
    (e: JobElement<S>) => if e.mOwner == s && e.mExecutionTick <= now then 1 else 0
  }

  ghost function LaterOwnedWeight<S>(s: S, now: Tick): JobElement<S> -> nat {
    (e: JobElement<S>) => if e.mOwner == s && now < e.mExecutionTick then 1 else 0
  }

  ghost function TimerWeight<S>(s: S, t: Task): JobElement<S> -> nat {
    (e: JobElement<S>) => if e.mOwner == s && e.mTask == t then 1 else 0
  }

  /** Queued elements that hold a reference to `s`. */
  ghost function Owned<S>(m: multiset<JobElement<S>>, s: S): nat {
    Total(m, OwnedWeight(s))
  }

  ghost function DueOwned<S>(m: multiset<JobElement<S>>, s: S, now: Tick): nat {
    Total(m, DueOwnedWeight(s, now))
  }

  /** Queued elements that will run `t` on `s`. */
  ghost function Timers<S>(m: multiset<JobElement<S>>, s: S, t: Task): nat {
    Total(m, TimerWeight(s, t))
  }

  /** Every due timer of a connected session is replaced by the next one, so its count
      stays; a disconnected session loses one reference for each of its due timers. */
  ghost function AfterDoTasks<S>(w: World<S>, now: Tick): World<S> {
    w.(mCurrentTick := now,
       queue := AfterTasks(now, Connected(w), w.queue),
       sessions := map s | s in w.sessions ::
         if w.sessions[s].mConnected then w.sessions[s]
         else w.sessions[s].(mRefCount := w.sessions[s].mRefCount - DueOwned(w.queue, s, now)))
  }

  /** Listed sessions that are disconnected and whose count is zero. */
  ghost function Garbage<S>(w: World<S>): set<S> {
    set k | k in w.clients && w.clients[k] in w.sessions
            && !w.sessions[w.clients[k]].mConnected && w.sessions[w.clients[k]].mRefCount == 0 :: w.clients[k]
  }

  ghost function AfterCollect<S>(w: World<S>): World<S> {
    w.(sessions := w.sessions - Garbage(w),
       clients := w.clients - (set s | s in Garbage(w) :: w.sessions[s].mSocket))
  }

  // ---------- Steps ----------

  /** What has to be true for the event to occur. A call needs a live session, a
      completion an outstanding request, and DoTasks only returns when no due timer of a
      connected session wraps. */
  ghost predicate Enabled<S>(w: World<S>, ev: Event<S>) {
    match ev
    case Accept(s, _, _, _) => s !in w.sessions
    case RecvCompletion(s, _, _, _) => s in w.recvs
    case SendCompletion(s, _, _) => s in w.sends
    case DoTasks(now) => WrapFree(now, Connected(w), w.queue)
    case CollectGarbage => true
    case _ => ev.s in w.sessions
  }

  /** A call on a session that has been freed has no defined effect; here it is a no-op,
      and `Lifetimes.NothingDangles` shows that no completion or timer ever makes one. */
  ghost function Step<S>(w: World<S>, ev: Event<S>): World<S> {
    if !ev.Accept? && !ev.DoTasks? && !ev.CollectGarbage? && ev.s !in w.sessions then w
    else
      match ev
      case Accept(s, socket, recvOk, lingerOk) => ReceiveOrDisconnect(Created(w, s, socket), s, recvOk, lingerOk)
      case PostRecv(s, recvOk) => AfterPostRecv(w, s, recvOk)
      case Disconnect(s, lingerOk) => AfterDisconnect(w, s, lingerOk)
      case SendRequest(s, fits, lingerOk) => AfterSendRequest(w, s, fits, lingerOk)
      case SendFlush(s, hasData, sendOk) => AfterSendFlush(w, s, hasData, sendOk)
      case RecvCompletion(s, error, recvOk, lingerOk) =>
        ReceiveOrDisconnect(RecvReleased(w, s), s, recvOk && !error, lingerOk)
      case SendCompletion(s, error, lingerOk) =>
        if error then AfterDisconnect(SendReleased(w, s), s, lingerOk) else SendReleased(w, s)
      case LoginDone(s, fits, lingerOk) => AfterLoginDone(w, s, fits, lingerOk)
      case DoTasks(now) => AfterDoTasks(w, now)
      case CollectGarbage => AfterCollect(w)
  }

  /** Every call on a session but LoginDone arms no timer. */
  lemma CallOnlyLetsGo<S>(w: World<S>, ev: Event<S>)
    requires !ev.Accept? && !ev.DoTasks? && !ev.CollectGarbage? && !ev.LoginDone? && ev.s in w.sessions
    ensures OnlyTouches(w, Step(w, ev), ev.s) && OnlyLetsGo(w, Step(w, ev), ev.s)
  {
  }

  lemma CallKeepsTick<S>(w: World<S>, ev: Event<S>)
    ensures Step(w, ev).mCurrentTick == if ev.DoTasks? then ev.now else w.mCurrentTick
  {
    if ev.LoginDone? {
      if ev.s in w.sessions {
        assert OnlyTouches(w, AfterLoginDone(w, ev.s, ev.fits, ev.lingerOk), ev.s);
      }
    } else if !ev.Accept? && !ev.DoTasks? && !ev.CollectGarbage? && ev.s in w.sessions {
      CallOnlyLetsGo(w, ev);
    }
  }

  ghost predicate IsRun<S>(w: World<S>, evs: seq<Event<S>>)
    decreases |evs|
  {
    evs == [] || (Enabled(w, evs[0]) && IsRun(Step(w, evs[0]), evs[1..]))
  }

  ghost function RunEnd<S>(w: World<S>, evs: seq<Event<S>>): World<S>
    decreases |evs|
  {
    if evs == [] then w else RunEnd(Step(w, evs[0]), evs[1..])
  }

  lemma {:induction false} RunSplits<S>(w: World<S>, first: seq<Event<S>>, second: seq<Event<S>>)
    requires IsRun(w, first + second)
    ensures IsRun(w, first) && IsRun(RunEnd(w, first), second)
    ensures RunEnd(w, first + second) == RunEnd(RunEnd(w, first), second)
    decreases |first|
  {
    if first == [] {
      assert first + second == second;
    } else {
      assert (first + second)[1..] == first[1..] + second;
      RunSplits(Step(w, first[0]), first[1..], second);
    }
  }

  lemma RunOfOneMore<S>(w: World<S>, evs: seq<Event<S>>, ev: Event<S>)
    requires IsRun(w, evs) && Enabled(RunEnd(w, evs), ev)
    ensures IsRun(w, evs + [ev]) && RunEnd(w, evs + [ev]) == Step(RunEnd(w, evs), ev)
    decreases |evs|
  {
    if evs == [] {
      assert [ev][1..] == [] && evs + [ev] == [ev];
    } else {
      assert (evs + [ev])[1..] == evs[1..] + [ev];
      RunOfOneMore(Step(w, evs[0]), evs[1..], ev);
    }
  }

  lemma EmptyRun<S>(w: World<S>)
    ensures IsRun(w, []) && RunEnd(w, []) == w
  {
  }

  lemma {:induction false} RunsConcat<S>(w: World<S>, first: seq<Event<S>>, second: seq<Event<S>>)
    requires IsRun(w, first) && IsRun(RunEnd(w, first), second)
    ensures IsRun(w, first + second) && RunEnd(w, first + second) == RunEnd(RunEnd(w, first), second)
    decreases |first|
  {
    if first == [] {
      assert first + second == second;
    } else {
      assert (first + second)[1..] == first[1..] + second;
      RunsConcat(Step(w, first[0]), first[1..], second);
    }
  }

  // ---------- Packet handlers run inside the receive completion ----------

  /** What the handler of a packet does to sessions, its own and others. */
  ghost predicate IsHandling<S>(evs: seq<Event<S>>) {
    forall ev | ev in evs :: ev.SendRequest? || ev.Disconnect?
  }

  lemma ReleaseCommutesWithDisconnect<S>(w: World<S>, s: S, x: S, lingerOk: bool)
    requires s in w.sessions && x in w.sessions
    ensures AfterDisconnect(RecvReleased(w, s), x, lingerOk) == RecvReleased(AfterDisconnect(w, x, lingerOk), s)
  {
    if IsConnected(w, x) && lingerOk {
      var first := RecvReleased(w, s).sessions[x := RecvReleased(w, s).sessions[x].(mConnected := false)];
      var second := RecvReleased(AfterDisconnect(w, x, lingerOk), s).sessions;
      forall y | y in w.sessions ensures first[y] == second[y] {
      }
      assert first == second;
    }
  }

  lemma ReleaseCommutes<S>(w: World<S>, s: S, ev: Event<S>)
    requires s in w.sessions && (ev.SendRequest? || ev.Disconnect?)
    ensures s in Step(w, ev).sessions
    ensures Step(RecvReleased(w, s), ev) == RecvReleased(Step(w, ev), s)
  {
    hide AfterDisconnect;
    if ev.s in w.sessions {
      ReleaseCommutesWithDisconnect(w, s, ev.s, ev.lingerOk);
    }
  }

  lemma {:induction false} HandlingCommutes<S>(w: World<S>, s: S, evs: seq<Event<S>>)
    requires s in w.sessions && IsHandling(evs)
    ensures s in RunEnd(w, evs).sessions
    ensures RunEnd(RecvReleased(w, s), evs) == RecvReleased(RunEnd(w, evs), s)
    decreases |evs|
  {
    hide RecvReleased, Step;
    if evs != [] {
      var ev := evs[0];
      assert ev in evs && forall e | e in evs[1..] :: e in evs;
      ReleaseCommutes(w, s, ev);
      HandlingCommutes(Step(w, ev), s, evs[1..]);
    }
  }

  /** The completion routine gives the reference back, handles the packets and posts the
      next receive: the same as handling the packets before the RecvCompletion step. */
  lemma HandlingBeforeCompletion<S>(w: World<S>, s: S, evs: seq<Event<S>>, recvOk: bool, lingerOk: bool)
    requires s in w.sessions && IsHandling(evs)
    ensures s in RunEnd(w, evs).sessions && s in RunEnd(RecvReleased(w, s), evs).sessions
    ensures ReceiveOrDisconnect(RunEnd(RecvReleased(w, s), evs), s, recvOk, lingerOk)
         == Step(RunEnd(w, evs), RecvCompletion(s, false, recvOk, lingerOk))
  {
    hide RecvReleased, RunEnd, ReceiveOrDisconnect;
    HandlingCommutes(w, s, evs);
  }

  // ---------- Counting timers across DoTasks ----------

  lemma TotalOfSingle<A>(e: A, weight: A -> nat)
    ensures Total(multiset{e}, weight) == weight(e)
  {
    assert multiset{} + multiset{e} == multiset{e};
    TotalOfOneMore(multiset{}, e, weight);
  }

  lemma OwnedOfOneMore<S>(m: multiset<JobElement<S>>, e: JobElement<S>, s: S)
    ensures Owned(m + multiset{e}, s) == Owned(m, s) + (if e.mOwner == s then 1 else 0)
  {
    TotalOfOneMore(m, e, OwnedWeight(s));
  }

  lemma NotOwnedIff<S>(m: multiset<JobElement<S>>, s: S)
    ensures Owned(m, s) == 0 <==> forall e | e in m :: e.mOwner != s
  {
    TotalIsZero(m, OwnedWeight(s));
    assert forall e: JobElement<S> :: OwnedWeight(s)(e) == 0 <==> e.mOwner != s;
  }

  /** A connected owner keeps as many timers of each kind as it had. */
  lemma ConnectedKeepsTimers<S>(now: Tick, connected: set<S>, m: multiset<JobElement<S>>, s: S)
    requires s in connected
    ensures Owned(AfterTasks(now, connected, m), s) == Owned(m, s)
    ensures forall t :: Timers(AfterTasks(now, connected, m), s, t) == Timers(m, s, t)
  {
    var image := SuccessorOf(now, connected);
    forall e | e in m ensures Total(image(e), OwnedWeight(s)) == OwnedWeight(s)(e) {
      SuccessorWeighs(now, connected, e, OwnedWeight(s));
    }
    TotalOfReplaced(m, image, OwnedWeight(s), OwnedWeight(s));
    forall t ensures Timers(AfterTasks(now, connected, m), s, t) == Timers(m, s, t) {
      forall e | e in m ensures Total(image(e), TimerWeight(s, t)) == TimerWeight(s, t)(e) {
        SuccessorWeighs(now, connected, e, TimerWeight(s, t));
      }
      TotalOfReplaced(m, image, TimerWeight(s, t), TimerWeight(s, t));
    }
  }

  lemma SuccessorWeighs<S>(now: Tick, connected: set<S>, e: JobElement<S>, weight: JobElement<S> -> nat)
    ensures Total(Successor(now, connected, e), weight)
         == if now < e.mExecutionTick then weight(e)
            else if e.mOwner in connected then weight(TimerAt(now, e.mOwner, e.mTask))
            else 0
  {
    TotalOfSingle(e, weight);
    TotalOfSingle(TimerAt(now, e.mOwner, e.mTask), weight);
  }

  /** A disconnected owner loses exactly its due ones. */
  lemma DisconnectedLosesDue<S>(now: Tick, connected: set<S>, m: multiset<JobElement<S>>, s: S)
    requires s !in connected
    ensures Owned(AfterTasks(now, connected, m), s) == Owned(m, s) - DueOwned(m, s, now)
  {
    var image := SuccessorOf(now, connected);
    forall e | e in m ensures Total(image(e), OwnedWeight(s)) == LaterOwnedWeight(s, now)(e) {
      SuccessorWeighs(now, connected, e, OwnedWeight(s));
    }
    TotalOfReplaced(m, image, OwnedWeight(s), LaterOwnedWeight(s, now));
    TotalOfSum(m, LaterOwnedWeight(s, now), DueOwnedWeight(s, now), OwnedWeight(s));
  }

  /** Where the elements queued after DoTasks come from. */
  lemma {:induction false} QueuedAfterTasks<S>(now: Tick, connected: set<S>, m: multiset<JobElement<S>>)
    ensures forall x | x in AfterTasks(now, connected, m) ::
              exists e :: e in m && x in Successor(now, connected, e)
    decreases |m|
  {
    if m != multiset{} {
      var e := Pick(m);
      var rest := m - multiset{e};
      QueuedAfterTasks(now, connected, rest);
      forall x | x in AfterTasks(now, connected, m) ensures exists y :: y in m && x in Successor(now, connected, y) {
        if x in Successor(now, connected, e) {
        } else {
          assert x in AfterTasks(now, connected, rest);
          var y :| y in rest && x in Successor(now, connected, y);
          assert y in m;
        }
      }
    }
  }

  /** What one iteration of the loop, wrapped or not, does to the number of timers a
      session owns: only a disconnected owner loses one. */
  lemma TimerBodyOwned<S>(now: Tick, connected: set<S>, q: seq<JobElement<S>>, s: S)
    requires IsHeap(q) && Guard(now, q)
    ensures IsHeap(TimerBody(now, connected, q))
    ensures Owned(multiset(TimerBody(now, connected, q)), s)
         == Owned(multiset(q), s) - (if q[0].mOwner == s && s !in connected then 1 else 0)
  {
    var pushed := Successor(now, connected, q[0]);
    TimerBodyRemoves(now, connected, q);
    TotalOfUnion(multiset(q), pushed, OwnedWeight(s));
    TotalOfOneLess(multiset(q) + pushed, Removed(now, connected, q[0]), OwnedWeight(s));
    SuccessorWeighs(now, connected, q[0], OwnedWeight(s));
  }

  lemma TimerBodyOwners<S>(now: Tick, connected: set<S>, q: seq<JobElement<S>>, live: set<S>)
    requires IsHeap(q) && Guard(now, q)
    requires forall e | e in q :: e.mOwner in live
    ensures forall e | e in TimerBody(now, connected, q) :: e.mOwner in live
  {
    TimerBodyRemoves(now, connected, q);
    forall e | e in TimerBody(now, connected, q) ensures e.mOwner in live {
      assert e in multiset(TimerBody(now, connected, q));
      assert e in multiset(q) || e in Successor(now, connected, q[0]);
      assert q[0] in q;
    }
  }

  lemma OwnerHasTimer<S>(q: seq<JobElement<S>>)
    requires q != []
    ensures Owned(multiset(q), q[0].mOwner) >= 1
  {
    assert q[0] in multiset(q);
    TotalOfOneLess(multiset(q), q[0], OwnedWeight(q[0].mOwner));
  }

  // ---------- Recognising a step by what it changes ----------

  /** A world that differs from `w` in the entry of `s` and in the given components. */
  ghost function WithEntry<S>(w: World<S>, s: S, st: SessionState, queue: multiset<JobElement<S>>,
                              recvs: multiset<S>, sends: multiset<S>): World<S> {
    w.(sessions := w.sessions[s := st], queue := queue, recvs := recvs, sends := sends)
  }

  lemma SameEntry<S>(w: World<S>, s: S)
    requires s in w.sessions
    ensures WithEntry(w, s, w.sessions[s], w.queue, w.recvs, w.sends) == w
  {
    assert w.sessions[s := w.sessions[s]] == w.sessions;
  }

  lemma IsPostRecv<S>(w: World<S>, s: S, recvOk: bool)
    requires s in w.sessions
    ensures var st := w.sessions[s];
            Step(w, PostRecv(s, recvOk)) ==
              if st.mConnected && recvOk then
                WithEntry(w, s, st.(mRefCount := st.mRefCount + 1), w.queue, w.recvs + multiset{s}, w.sends)
              else WithEntry(w, s, st, w.queue, w.recvs, w.sends)
  {
    SameEntry(w, s);
  }

  lemma IsSendFlush<S>(w: World<S>, s: S, hasData: bool, sendOk: bool)
    requires s in w.sessions
    ensures var st := w.sessions[s];
            Step(w, SendFlush(s, hasData, sendOk)) ==
              if st.mConnected && hasData && sendOk then
                WithEntry(w, s, st.(mRefCount := st.mRefCount + 1), w.queue, w.recvs, w.sends + multiset{s})
              else WithEntry(w, s, st, w.queue, w.recvs, w.sends)
  {
    SameEntry(w, s);
  }

  lemma IsSendRequest<S>(w: World<S>, s: S, fits: bool, lingerOk: bool)
    requires s in w.sessions
    ensures var st := w.sessions[s];
            Step(w, SendRequest(s, fits, lingerOk)) ==
              WithEntry(w, s, st.(mConnected := st.mConnected && (fits || !lingerOk)), w.queue, w.recvs, w.sends)
  {
    SameEntry(w, s);
  }

  lemma IsAccept<S>(w: World<S>, s: S, socket: int, recvOk: bool, lingerOk: bool)
    requires s !in w.sessions
    ensures Step(w, Accept(s, socket, recvOk, lingerOk)) ==
              WithEntry(w, s, SessionState(socket, recvOk || !lingerOk, false, if recvOk then 1 else 0), w.queue,
                        if recvOk then w.recvs + multiset{s} else w.recvs, w.sends).(
                clients := if socket in w.clients then w.clients else w.clients[socket := s])
  {
    var created := Created(w, s, socket);
    assert AddRefs(created, s, 1).sessions == w.sessions[s := AddRefs(created, s, 1).sessions[s]];
    assert AfterDisconnect(created, s, lingerOk).sessions
        == w.sessions[s := AfterDisconnect(created, s, lingerOk).sessions[s]];
  }

  lemma IsRecvCompletion<S>(w: World<S>, s: S, error: bool, recvOk: bool, lingerOk: bool)
    requires s in w.sessions
    ensures var st := w.sessions[s];
            var again := st.mConnected && recvOk && !error;
            Step(w, RecvCompletion(s, error, recvOk, lingerOk)) ==
              if again then WithEntry(w, s, st, w.queue, w.recvs - multiset{s} + multiset{s}, w.sends)
              else WithEntry(w, s, st.(mConnected := st.mConnected && !lingerOk, mRefCount := st.mRefCount - 1),
                             w.queue, w.recvs - multiset{s}, w.sends)
  {
    hide OnlyTouches, OnlyLetsGo;
    var released := RecvReleased(w, s);
    assert AddRefs(released, s, 1).sessions == w.sessions[s := w.sessions[s]];
    assert AfterDisconnect(released, s, lingerOk).sessions
        == w.sessions[s := AfterDisconnect(released, s, lingerOk).sessions[s]];
  }

  lemma IsSendCompletion<S>(w: World<S>, s: S, error: bool, lingerOk: bool)
    requires s in w.sessions
    ensures var st := w.sessions[s];
            Step(w, SendCompletion(s, error, lingerOk)) ==
              WithEntry(w, s, st.(mConnected := st.mConnected && !(error && lingerOk), mRefCount := st.mRefCount - 1),
                        w.queue, w.recvs, w.sends - multiset{s})
  {
    var released := SendReleased(w, s);
    assert AfterDisconnect(released, s, lingerOk).sessions
        == w.sessions[s := AfterDisconnect(released, s, lingerOk).sessions[s]];
  }

  lemma IsLoginDone<S>(w: World<S>, s: S, fits: bool, lingerOk: bool)
    requires s in w.sessions
    ensures var st := w.sessions[s];
            var up := st.mConnected && (fits || !lingerOk);
            Step(w, LoginDone(s, fits, lingerOk)) ==
              if up then
                WithEntry(w, s, st.(mLogon := true, mRefCount := st.mRefCount + 2),
                          w.queue + multiset{TimerAt(w.mCurrentTick, s, OnTick)} + multiset{TimerAt(w.mCurrentTick, s, OnDbUpdate)},
                          w.recvs, w.sends)
              else WithEntry(w, s, st.(mConnected := false, mLogon := true), w.queue, w.recvs, w.sends)
  {
    var sent := AfterSendRequest(w, s, fits, lingerOk);
    var marked := sent.(sessions := sent.sessions[s := sent.sessions[s].(mLogon := true)]);
    var ticking := Armed(marked, s, OnTick);
    assert marked.sessions == w.sessions[s := marked.sessions[s]];
    assert ticking.sessions == w.sessions[s := ticking.sessions[s]];
    assert Armed(ticking, s, OnDbUpdate).sessions == w.sessions[s := Armed(ticking, s, OnDbUpdate).sessions[s]];
  }

  /** DoTasks, from the point of view of the references that are not timers. */
  lemma IsDoTasks<S>(w: World<S>, w': World<S>, now: Tick)
    requires w'.queue == AfterTasks(now, Connected(w), w.queue)
    requires w' == w.(mCurrentTick := now, queue := w'.queue, sessions := w'.sessions)
    requires w'.sessions.Keys == w.sessions.Keys
    requires forall s | s in w.sessions ::
      w'.sessions[s] == w.sessions[s].(mRefCount := w.sessions[s].mRefCount - Owned(w.queue, s) + Owned(w'.queue, s))
    ensures w' == Step(w, DoTasks(now))
  {
    forall s | s in w.sessions ensures w'.sessions[s] == AfterDoTasks(w, now).sessions[s] {
      if w.sessions[s].mConnected {
        ConnectedKeepsTimers(now, Connected(w), w.queue, s);
      } else {
        DisconnectedLosesDue(now, Connected(w), w.queue, s);
      }
    }
    assert w'.sessions == AfterDoTasks(w, now).sessions;
  }
}
