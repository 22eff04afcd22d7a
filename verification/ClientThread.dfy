/** The client thread: its scheduler, its list of sessions and what it leaves pending.
    Every entry point refines one step of the state machine. */
module ClientThreads {
  import opened Ticks
  import opened JobQueue
  import opened SessionTimers
  import opened CircularBuffers
  import opened Sessions
  import Model = ServerModel
  import Lifetimes
  import Stream = OutgoingStream

  class ClientThread {
    const mScheduler: Scheduler
    const mIo: PendingIO
    var mClientList: map<int, ClientSession>
    /** The session objects that have not been deleted. */
    ghost var mSessions: set<ClientSession>

    ghost function View(): Model.World<ClientSession>
      reads this, mScheduler, mScheduler.mTaskQueue, mIo, mSessions
    {
      Model.World(
        mScheduler.mCurrentTick,
        multiset(mScheduler.mTaskQueue.c),
        map s | s in mSessions :: s.State(),
        mClientList,
        mIo.mRecvs,
        mIo.mSends)
    }

    /** What the operating system has left to send is what the streams have posted. */
    ghost predicate SendsAgree()
      reads this`mSessions, mIo`mSends, mSessions`mStream
    {
      && (forall s | s in mIo.mSends :: s in mSessions)
      && (forall s | s in mSessions :: mIo.mSends[s] == |s.mStream.posts|)
    }

    /** Sessions do not share send buffers, and each buffer agrees with its stream. */
    ghost predicate Valid()
      reads this`mSessions, mIo`mSends, mScheduler.mTaskQueue, mSessions,
            set s | s in mSessions :: s.mSendBuffer, set s | s in mSessions :: s.mSendBuffer.mBuffer
    {
      && mScheduler.Valid() && SendsAgree()
      && (forall s | s in mSessions :: s.Valid())
      && (forall s, t | s in mSessions && t in mSessions && s != t ::
            s.mSendBuffer != t.mSendBuffer && s.mSendBuffer.mBuffer != t.mSendBuffer.mBuffer)
    }

    constructor (now: Tick)
      ensures Valid() && View() == Lifetimes.Boot(now)
      ensures fresh(mScheduler) && fresh(mScheduler.mTaskQueue) && fresh(mIo)
    {
      mScheduler := new Scheduler(now);
      mIo := new PendingIO();
      mClientList := map[];
      mSessions := {};
    }

    /** Nothing but `s`, its buffer, the scheduler and the pending I/O has changed. */
    twostate predicate OnlyCalled(s: ClientSession)
      reads *
    {
      && old(s in mSessions) && mSessions == old(mSessions) && mClientList == old(mClientList)
      && mScheduler.mCurrentTick == old(mScheduler.mCurrentTick)
      && forall x | x in mSessions && x != s ::
           unchanged(x) && unchanged(x.mSendBuffer) && unchanged(x.mSendBuffer.mBuffer)
    }

    twostate lemma StaysValid(s: ClientSession)
      requires old(Valid()) && OnlyCalled(s) && mScheduler.Valid() && s.Valid()
      requires mIo.mSends == old(mIo.mSends)[s := |s.mStream.posts|]
      ensures Valid()
    {
      forall x | x in mSessions && x != s ensures x.Valid() {
        assert old(x.Valid());
      }
    }

    /** `s` is new, with a buffer of its own, and no older session has changed. */
    twostate predicate OnlyJoined(new s: ClientSession)
      reads *
    {
      && s !in old(mSessions) && mSessions == old(mSessions) + {s}
      && unchanged(mScheduler) && unchanged(mScheduler.mTaskQueue) && mIo.mSends == old(mIo.mSends)
      && forall x | x in old(mSessions) ::
           && unchanged(x) && unchanged(x.mSendBuffer) && unchanged(x.mSendBuffer.mBuffer)
           && x.mSendBuffer != s.mSendBuffer && x.mSendBuffer.mBuffer != s.mSendBuffer.mBuffer
    }

    twostate lemma JoiningSendsAgree(new s: ClientSession)
      requires old(SendsAgree()) && OnlyJoined(s) && s.mStream.posts == []
      ensures SendsAgree()
    {
      assert s !in old(mIo.mSends);
    }

    twostate lemma JoiningStaysValid(new s: ClientSession)
      requires old(Valid()) && OnlyJoined(s) && s.Valid() && s.mStream.posts == []
      ensures Valid()
    {
      hide SendsAgree, ClientSession.Valid;
      JoiningSendsAgree(s);
      forall x | x in old(mSessions)
        ensures x.Valid() && x.mSendBuffer != s.mSendBuffer && x.mSendBuffer.mBuffer != s.mSendBuffer.mBuffer
      {
        assert old(x.Valid());
      }
    }

    /** Then the view has changed in that session's entry only. */
    twostate lemma OneEntryChanges(s: ClientSession)
      requires OnlyCalled(s)
      ensures View() == Model.WithEntry(old(View()), s, s.State(), multiset(mScheduler.mTaskQueue.c), mIo.mRecvs, mIo.mSends)
    {
    }

    twostate lemma PostRecvIsStep(s: ClientSession, new recvOk: bool)
      requires OnlyCalled(s)
      requires mScheduler.mTaskQueue.c == old(mScheduler.mTaskQueue.c) && mIo.mSends == old(mIo.mSends)
      requires s.State() == old(s.State()).(mRefCount := s.mRefCount)
      requires var posts := old(s.mConnected) && recvOk;
               && s.mRefCount == old(s.mRefCount) + (if posts then 1 else 0)
               && mIo.mRecvs == old(mIo.mRecvs) + (if posts then multiset{s} else multiset{})
      ensures View() == Model.Step(old(View()), Model.PostRecv(s, recvOk))
    {
      OneEntryChanges(s);
      Model.IsPostRecv(old(View()), s, recvOk);
    }

    twostate lemma SendFlushIsStep(s: ClientSession, new hasData: bool, new sendOk: bool)
      requires OnlyCalled(s)
      requires mScheduler.mTaskQueue.c == old(mScheduler.mTaskQueue.c) && mIo.mRecvs == old(mIo.mRecvs)
      requires s.State() == old(s.State()).(mRefCount := s.mRefCount)
      requires var posts := old(s.mConnected) && hasData && sendOk;
               && s.mRefCount == old(s.mRefCount) + (if posts then 1 else 0)
               && mIo.mSends == old(mIo.mSends) + (if posts then multiset{s} else multiset{})
      ensures View() == Model.Step(old(View()), Model.SendFlush(s, hasData, sendOk))
    {
      OneEntryChanges(s);
      Model.IsSendFlush(old(View()), s, hasData, sendOk);
    }

    twostate lemma SendRequestIsStep(s: ClientSession, new fits: bool, new lingerOk: bool)
      requires OnlyCalled(s)
      requires mScheduler.mTaskQueue.c == old(mScheduler.mTaskQueue.c)
      requires mIo.mRecvs == old(mIo.mRecvs) && mIo.mSends == old(mIo.mSends)
      requires s.State() == old(s.State()).(mConnected := old(s.mConnected) && (fits || !lingerOk))
      ensures View() == Model.Step(old(View()), Model.SendRequest(s, fits, lingerOk))
      ensures !fits ==> View() == Model.Step(old(View()), Model.Disconnect(s, lingerOk))
    {
      OneEntryChanges(s);
      Model.IsSendRequest(old(View()), s, fits, lingerOk);
    }

    twostate lemma LoginDoneIsStep(s: ClientSession, new fits: bool, new lingerOk: bool)
      requires OnlyCalled(s)
      requires mIo.mRecvs == old(mIo.mRecvs) && mIo.mSends == old(mIo.mSends)
      requires multiset(mScheduler.mTaskQueue.c)
            == old(multiset(mScheduler.mTaskQueue.c)) + s.FirstTimers(mScheduler.mCurrentTick)
      requires s.mConnected == (old(s.mConnected) && (fits || !lingerOk))
      requires s.State() == old(s.State()).(
                 mConnected := s.mConnected, mLogon := true, mRefCount := old(s.mRefCount) + if s.mConnected then 2 else 0)
      ensures View() == Model.Step(old(View()), Model.LoginDone(s, fits, lingerOk))
    {
      OneEntryChanges(s);
      Model.IsLoginDone(old(View()), s, fits, lingerOk);
    }

    twostate lemma RecvCompletionIsStep(s: ClientSession, new error: bool, new recvOk: bool, new lingerOk: bool)
      requires OnlyCalled(s)
      requires mScheduler.mTaskQueue.c == old(mScheduler.mTaskQueue.c) && mIo.mSends == old(mIo.mSends)
      requires var again := old(s.mConnected) && recvOk && !error;
               && mIo.mRecvs == old(mIo.mRecvs) - multiset{s} + (if again then multiset{s} else multiset{})
               && s.State() == old(s.State()).(mConnected := old(s.mConnected) && (again || !lingerOk),
                                               mRefCount := old(s.mRefCount) - if again then 0 else 1)
      ensures View() == Model.Step(old(View()), Model.RecvCompletion(s, error, recvOk, lingerOk))
    {
      OneEntryChanges(s);
      Model.IsRecvCompletion(old(View()), s, error, recvOk, lingerOk);
    }

    twostate lemma SendCompletionIsStep(s: ClientSession, new error: bool, new lingerOk: bool)
      requires OnlyCalled(s)
      requires mScheduler.mTaskQueue.c == old(mScheduler.mTaskQueue.c) && mIo.mRecvs == old(mIo.mRecvs)
      requires mIo.mSends == old(mIo.mSends) - multiset{s}
      requires s.State() == old(s.State()).(mConnected := old(s.mConnected) && !(error && lingerOk),
                                            mRefCount := old(s.mRefCount) - 1)
      ensures View() == Model.Step(old(View()), Model.SendCompletion(s, error, lingerOk))
    {
      OneEntryChanges(s);
      Model.IsSendCompletion(old(View()), s, error, lingerOk);
    }

    twostate lemma AcceptIsStep(new s: ClientSession, new socket: int, new recvOk: bool, new lingerOk: bool)
      requires OnlyJoined(s)
      requires mClientList == if socket in old(mClientList) then old(mClientList) else old(mClientList)[socket := s]
      requires mIo.mRecvs == old(mIo.mRecvs) + (if recvOk then multiset{s} else multiset{})
      requires s.State() == Model.SessionState(socket, recvOk || !lingerOk, false, if recvOk then 1 else 0)
      ensures View() == Model.Step(old(View()), Model.Accept(s, socket, recvOk, lingerOk))
    {
      Model.IsAccept(old(View()), s, socket, recvOk, lingerOk);
      assert View().sessions == old(View()).sessions[s := s.State()];
    }

    /** Nothing but the scheduler and the sessions' counts has changed. */
    twostate predicate OnlyCounted()
      reads *
    {
      && mSessions == old(mSessions) && unchanged(`mClientList) && unchanged(mIo)
      && forall s | s in mSessions ::
           && s.State() == old(s.State()).(mRefCount := s.mRefCount)
           && unchanged(s`mStream) && unchanged(s.mSendBuffer) && unchanged(s.mSendBuffer.mBuffer)
    }

    twostate lemma CountingStaysValid()
      requires old(Valid()) && OnlyCounted() && mScheduler.Valid()
      ensures Valid()
    {
      forall s | s in mSessions ensures s.Valid() {
        assert old(s.Valid());
      }
    }

    twostate lemma DoTasksIsStep(now: Tick)
      requires OnlyCounted() && mScheduler.mCurrentTick == now
      requires multiset(mScheduler.mTaskQueue.c)
            == AfterTasks(now, Model.Connected(old(View())), old(multiset(mScheduler.mTaskQueue.c)))
      requires forall s | s in mSessions ::
                 mScheduler.Balance(s, mScheduler.mTaskQueue.c) == old(mScheduler.Balance(s, mScheduler.mTaskQueue.c))
      ensures View() == Model.Step(old(View()), Model.DoTasks(now))
    {
      Model.IsDoTasks(old(View()), View(), now);
    }

    /** In reachable states everything a timer refers to is live and counted. */
    lemma TimersKeepAlive()
      requires Lifetimes.Inv(View())
      ensures mScheduler.KeepsAlive(mSessions, mScheduler.mTaskQueue.c)
      ensures mScheduler.AreConnected(mSessions, Model.Connected(View()))
    {
      var q := mScheduler.mTaskQueue.c;
      forall e | e in q ensures e.mOwner in mSessions {
        assert e in multiset(q);
      }
      forall s | s in mSessions ensures mScheduler.Balance(s, q) >= 0 {
        assert View().sessions[s].mRefCount == Lifetimes.References(View(), s);
      }
    }

    /** Inserting into the list keeps an older entry for the same socket. */
    method CreateClient(sock: int) returns (client: ClientSession)
      modifies this`mClientList, this`mSessions
      ensures client.Valid() && fresh(client) && fresh(client.mSendBuffer) && fresh(client.mSendBuffer.mBuffer)
      ensures client.State() == Model.SessionState(sock, false, false, 0) && client.mPlayerId == -1
      ensures client.mStream == Stream.FRESH.(open := false) && client.mSendBuffer.WriteSpace() == 10240
      ensures mSessions == old(mSessions) + {client}
      ensures mClientList == if sock in old(mClientList) then old(mClientList) else old(mClientList)[sock := client]
    {
      client := new ClientSession(sock);
      if sock !in mClientList {
        mClientList := mClientList[sock := client];
      }
      mSessions := mSessions + {client};
    }

    /** What the thread does with a socket from the list of accepted ones. */
    method CreateAndConnect(socket: int, recvOk: bool, lingerOk: bool) returns (client: ClientSession)
      modifies this`mClientList, this`mSessions, mIo`mRecvs
      ensures fresh(client) && client.Valid() && client.mSendBuffer.WriteSpace() == 10240
      ensures client.mStream == Stream.FRESH.(open := recvOk || !lingerOk)
      ensures OnlyJoined(client)
      ensures client.State() == Model.SessionState(socket, recvOk || !lingerOk, false, if recvOk then 1 else 0)
      ensures mClientList == if socket in old(mClientList) then old(mClientList) else old(mClientList)[socket := client]
      ensures mIo.mRecvs == old(mIo.mRecvs) + (if recvOk then multiset{client} else multiset{})
    {
      client := CreateClient(socket);
      var ok := client.OnConnect(mIo, recvOk);
      assert client.State() == Model.SessionState(socket, true, false, if recvOk then 1 else 0);
      if !ok {
        client.Disconnect(lingerOk);
      }
    }

    method Accept(socket: int, recvOk: bool, lingerOk: bool) returns (client: ClientSession)
      requires Valid()
      modifies this`mClientList, this`mSessions, mIo`mRecvs
      ensures Valid() && fresh(client)
      ensures View() == Model.Step(old(View()), Model.Accept(client, socket, recvOk, lingerOk))
      ensures client.mStream == Stream.FRESH.(open := recvOk || !lingerOk)
      ensures client.mSendBuffer.WriteSpace() == 10240
    {
      client := CreateAndConnect(socket, recvOk, lingerOk);
      JoiningStaysValid(client);
      AcceptIsStep(client, socket, recvOk, lingerOk);
    }

    method RecvCompletion(fromClient: ClientSession, error: bool, recvOk: bool, lingerOk: bool)
      requires Valid() && fromClient in mSessions && fromClient in mIo.mRecvs
      modifies fromClient`mRefCount, fromClient`mConnected, fromClient`mStream, mIo`mRecvs
      ensures Valid() && View() == Model.Step(old(View()), Model.RecvCompletion(fromClient, error, recvOk, lingerOk))
      ensures fromClient.mStream == old(fromClient.mStream).(open := fromClient.mConnected)
    {
      hide View, Model.Step, ClientSession.Valid;
      mIo.mRecvs := mIo.mRecvs - multiset{fromClient};
      fromClient.RecvCompletion(mIo, error, recvOk, lingerOk);
      StaysValid(fromClient);
      RecvCompletionIsStep(fromClient, error, recvOk, lingerOk);
    }

    /** How a send of `s` may end: by an error, or with some of its bytes delivered. Every
        send the operating system still holds is one of the stream's. */
    ghost predicate MayEnd(s: ClientSession, end: Stream.Act)
      requires Valid() && s in mIo.mSends && (end.Complete? || end.Fail?)
      reads this`mSessions, mIo`mSends, mScheduler.mTaskQueue, mSessions,
            set s | s in mSessions :: s.mSendBuffer, set s | s in mSessions :: s.mSendBuffer.mBuffer
      ensures s in mSessions
      ensures MayEnd(s, end) ==> Stream.Enabled(s.mStream, end)
    {
      hide ClientSession.Valid;
      assert |s.mStream.posts| > 0;
      end.Complete? ==> 1 <= end.n <= s.mStream.posts[0].len
    }

    method SendCompletion(fromClient: ClientSession, error: bool, cbTransferred: nat, lingerOk: bool)
      requires Valid() && fromClient in mIo.mSends
      requires MayEnd(fromClient, if error then Stream.Fail(lingerOk) else Stream.Complete(cbTransferred))
      modifies fromClient`mRefCount, fromClient`mConnected, fromClient`mStream, mIo`mSends
      modifies fromClient.mSendBuffer, fromClient.mSendBuffer.mBuffer
      ensures Valid() && View() == Model.Step(old(View()), Model.SendCompletion(fromClient, error, lingerOk))
      ensures fromClient.mStream
           == Stream.Step(old(fromClient.mStream), if error then Stream.Fail(lingerOk) else Stream.Complete(cbTransferred))
    {
      hide View, Model.Step, Stream.Step, ClientSession.Valid, CircularBuffer.Valid, CircularBuffer.WriteSpace, CircularBuffer.Contents;
      Stream.StepPosts(fromClient.mStream, if error then Stream.Fail(lingerOk) else Stream.Complete(cbTransferred));
      mIo.mSends := mIo.mSends - multiset{fromClient};
      fromClient.SendCompletion(error, cbTransferred, lingerOk);
      StaysValid(fromClient);
      SendCompletionIsStep(fromClient, error, lingerOk);
    }

    method PostRecv(s: ClientSession, recvOk: bool) returns (ok: bool)
      requires Valid() && s in mSessions
      modifies s`mRefCount, mIo`mRecvs
      ensures Valid() && View() == Model.Step(old(View()), Model.PostRecv(s, recvOk))
      ensures ok <==> s.mConnected && recvOk
    {
      ok := s.PostRecv(mIo, recvOk);
      StaysValid(s);
      PostRecvIsStep(s, recvOk);
    }

    method Disconnect(s: ClientSession, lingerOk: bool)
      requires Valid() && s in mSessions
      modifies s`mConnected, s`mStream
      ensures s.mStream == Stream.Step(old(s.mStream), Stream.Close(lingerOk))
      ensures s.mConnected <==> old(s.mConnected) && !lingerOk
      ensures Valid() && View() == Model.Step(old(View()), Model.Disconnect(s, lingerOk))
    {
      hide View, Model.Step, ClientSession.Valid;
      s.Disconnect(lingerOk);
      StaysValid(s);
      SendRequestIsStep(s, false, lingerOk);
    }

    method SendRequest(s: ClientSession, pkt: seq<byte>, lingerOk: bool) returns (ok: bool)
      requires Valid() && s in mSessions
      modifies s`mConnected, s`mStream, s.mSendBuffer, s.mSendBuffer.mBuffer
      ensures Valid()
      ensures View() == Model.Step(old(View()), Model.SendRequest(s, |pkt| <= old(s.mSendBuffer.WriteSpace()), lingerOk))
      ensures s.mStream
           == Stream.Step(old(s.mStream), Stream.Send(pkt, |pkt| <= old(s.mSendBuffer.WriteSpace()), lingerOk))
      ensures ok <==> old(s.mConnected) && |pkt| <= old(s.mSendBuffer.WriteSpace())
      ensures s.mConnected <==> old(s.mConnected) && (ok || !lingerOk)
      ensures old(s.mConnected) && old(s.mStream.acked) == 0 ==> (ok <==> |old(s.mStream.accepted)| + |pkt| <= 10240)
    {
      hide View, Model.Step, Stream.Step, CircularBuffer.Valid, CircularBuffer.WriteSpace, CircularBuffer.Contents;
      Stream.StepPosts(s.mStream, Stream.Send(pkt, |pkt| <= s.mSendBuffer.WriteSpace(), lingerOk));
      ok := s.SendRequest(pkt, lingerOk);
      StaysValid(s);
      SendRequestIsStep(s, |pkt| <= old(s.mSendBuffer.WriteSpace()), lingerOk);
    }

    method SendFlush(s: ClientSession, sendOk: bool) returns (ok: bool)
      requires Valid() && s in mSessions
      modifies s`mRefCount, s`mStream, mIo`mSends
      ensures Valid()
      ensures View() == Model.Step(old(View()), Model.SendFlush(s, old(s.mStream).buffered != [], sendOk))
      ensures s.mStream == if sendOk then Stream.Step(old(s.mStream), old(s.NextFlush())) else old(s.mStream)
      ensures ok <==> s.mConnected && (old(s.mStream.buffered) == [] || sendOk)
      ensures mIo.mSends
           == old(mIo.mSends) + (if s.mConnected && old(s.mStream.buffered) != [] && sendOk then multiset{s} else multiset{})
    {
      hide View, Model.Step, Stream.Step, Stream.Accounted, CircularBuffer.Valid, CircularBuffer.Contents;
      Stream.StepPosts(s.mStream, s.NextFlush());
      ok := s.SendFlush(mIo, sendOk);
      StaysValid(s);
      SendFlushIsStep(s, old(s.mStream).buffered != [], sendOk);
    }

    /** What the periodic flush does with one session. One whose flush answers false is
        disconnected, and stays connected only if that fails. */
    method FlushOrDisconnect(client: ClientSession, sendOk: bool, lingerOk: bool)
      returns (ghost evs: seq<Model.Event<ClientSession>>)
      requires Valid() && client in mSessions
      modifies client`mRefCount, client`mConnected, client`mStream, mIo`mSends
      ensures Valid() && Model.IsRun(old(View()), evs) && View() == Model.RunEnd(old(View()), evs)
      ensures client.mConnected <==> old(client.mConnected) && (old(client.mStream.buffered) == [] || sendOk || !lingerOk)
      ensures mIo.mSends
           == old(mIo.mSends) +
              (if old(client.mConnected) && old(client.mStream.buffered) != [] && sendOk then multiset{client} else multiset{})
    {
      hide View, Valid, Model.Step, Stream.Step, ClientSession.Valid;
      ghost var w := View();
      ghost var flush := Model.SendFlush(client, client.mStream.buffered != [], sendOk);
      LiveIsValid(client);
      var ok := SendFlush(client, sendOk);
      Model.RunOfOneMore(w, [], flush);
      evs := [] + [flush];
      if !ok {
        LiveIsValid(client);
        Disconnect(client, lingerOk);
        Model.RunOfOneMore(w, evs, Model.Disconnect(client, lingerOk));
        evs := evs + [Model.Disconnect(client, lingerOk)];
      }
    }

    /** The flush of `c` went as said: one send more, or disconnected, or neither. */
    twostate predicate WasFlushed(c: ClientSession, new sendOk: bool, new lingerOk: bool)
      reads c, mIo
    {
      && (c.mConnected <==> old(c.mConnected) && (old(c.mStream.buffered) == [] || sendOk || !lingerOk))
      && mIo.mSends[c] == old(mIo.mSends[c]) + if old(c.mConnected) && old(c.mStream.buffered) != [] && sendOk then 1 else 0
    }

    twostate predicate WasLeft(c: ClientSession)
      reads c, mIo
    {
      unchanged(c) && mIo.mSends[c] == old(mIo.mSends[c])
    }

    /** The periodic flush, over the list in any order. `sendOk` and `lingerOk` are the
        sessions whose sends and linger options succeed. What it does is a run of the state
        machine; each listed session gets one send more or is disconnected, as its own
        flush went, and no other session changes. */
    method FlushClientSend(sendOk: set<ClientSession>, lingerOk: set<ClientSession>)
      returns (ghost evs: seq<Model.Event<ClientSession>>)
      requires Valid() && Lifetimes.NothingDangles(View())
      modifies mSessions`mRefCount, mSessions`mConnected, mSessions`mStream, mIo`mSends
      ensures Valid() && Model.IsRun(old(View()), evs) && View() == Model.RunEnd(old(View()), evs)
      ensures forall c | c in mSessions && (c.mSocket, c) in mClientList.Items ::
                WasFlushed(c, c in sendOk, c in lingerOk)
      ensures forall c | c in mSessions && (c.mSocket, c) !in mClientList.Items :: WasLeft(c)
    {
      hide View, Valid, Model.Step, Model.IsRun, Model.RunEnd, Stream.Step, ClientSession.Valid, Lifetimes.NothingDangles;
      ghost var w := View();
      ghost var done: set<ClientSession> := {};
      ghost var items := mClientList.Items;
      ListIsLive();
      Model.EmptyRun(w);
      evs := [];
      var rest := mClientList.Items;
      while rest != {}
        invariant rest <= items == mClientList.Items
        invariant forall x | x in items :: x.1 in mSessions && x.1.mSocket == x.0
        invariant forall x | x in items :: x in rest <==> x.1 !in done
        invariant forall c | c in done :: c in mSessions && (c.mSocket, c) in items
        invariant Valid() && Model.IsRun(w, evs) && View() == Model.RunEnd(w, evs)
        invariant forall c | c in mSessions && c !in done :: WasLeft(c)
        invariant forall c | c in done :: WasFlushed(c, c in sendOk, c in lingerOk)
      {
        var it :| it in rest;
        var client := it.1;
        assert it in items && it == (client.mSocket, client) && WasLeft(client);
        ghost var step := FlushOrDisconnect(client, client in sendOk, client in lingerOk);
        Model.RunsConcat(w, evs, step);
        evs := evs + step;
        assert WasFlushed(client, client in sendOk, client in lingerOk);
        rest, done := rest - {it}, done + {client};
      }
      forall c | c in mSessions && (c.mSocket, c) in items ensures c in done {
        assert (c.mSocket, c).1 == c;
      }
    }

    lemma ListIsLive()
      requires Lifetimes.NothingDangles(View())
      ensures forall it | it in mClientList.Items :: it.1 in mSessions && it.1.mSocket == it.0
    {
      forall it | it in mClientList.Items ensures it.1 in mSessions && it.1.mSocket == it.0 {
        EntryIsGarbageIff(it.0);
      }
    }

    lemma LiveIsValid(s: ClientSession)
      requires Valid() && s in mSessions
      ensures s.Valid() && s in View().sessions && (s.mConnected <==> s.mStream.open)
    {
    }

    method LoginDone(s: ClientSession, pid: int, x: real, y: real, answer: seq<byte>, lingerOk: bool)
      requires Valid() && s in mSessions
      modifies s, s.mSendBuffer, s.mSendBuffer.mBuffer, mScheduler.mTaskQueue
      ensures Valid()
      ensures View() == Model.Step(old(View()), Model.LoginDone(s, |answer| <= old(s.mSendBuffer.WriteSpace()), lingerOk))
      ensures s.mStream
           == Stream.Step(old(s.mStream), Stream.Send(answer, |answer| <= old(s.mSendBuffer.WriteSpace()), lingerOk))
      ensures s.mPlayerId == pid && s.mPosX == x && s.mPosY == y && s.mLogon
      ensures s.mConnected <==> old(s.mConnected) && (|answer| <= old(s.mSendBuffer.WriteSpace()) || !lingerOk)
    {
      hide View, Model.Step, Stream.Step, CircularBuffer.Valid, CircularBuffer.WriteSpace, CircularBuffer.Contents;
      Stream.StepPosts(s.mStream, Stream.Send(answer, |answer| <= s.mSendBuffer.WriteSpace(), lingerOk));
      s.LoginDone(mScheduler, pid, x, y, answer, lingerOk);
      StaysValid(s);
      LoginDoneIsStep(s, |answer| <= old(s.mSendBuffer.WriteSpace()), lingerOk);
    }

    method RunTimers(now: Tick, ghost connected: set<ClientSession>)
      requires Valid() && WrapFree(now, connected, multiset(mScheduler.mTaskQueue.c))
      requires mScheduler.KeepsAlive(mSessions, mScheduler.mTaskQueue.c)
      requires mScheduler.AreConnected(mSessions, connected)
      modifies mScheduler`mCurrentTick, mScheduler.mTaskQueue, mSessions`mRefCount
      ensures Valid() && OnlyCounted() && mScheduler.mCurrentTick == now
      ensures multiset(mScheduler.mTaskQueue.c) == AfterTasks(now, connected, old(multiset(mScheduler.mTaskQueue.c)))
      ensures forall s | s in mSessions ::
                mScheduler.Balance(s, mScheduler.mTaskQueue.c) == old(mScheduler.Balance(s, mScheduler.mTaskQueue.c))
    {
      mScheduler.DoTasks(now, mSessions, connected);
      CountingStaysValid();
    }

    method DoTasks(now: Tick)
      requires Valid() && Lifetimes.Inv(View()) && Model.Enabled(View(), Model.DoTasks(now))
      modifies mScheduler`mCurrentTick, mScheduler.mTaskQueue, mSessions`mRefCount
      ensures Valid() && View() == Model.Step(old(View()), Model.DoTasks(now))
    {
      TimersKeepAlive();
      RunTimers(now, Model.Connected(View()));
      DoTasksIsStep(now);
    }

    lemma EntryIsGarbageIff(k: int)
      requires Lifetimes.NothingDangles(View()) && k in mClientList
      ensures mClientList[k] in mSessions && mClientList[k].mSocket == k
      ensures mClientList[k] in Model.Garbage(View()) <==> !mClientList[k].mConnected && 0 == mClientList[k].mRefCount
    {
      Lifetimes.EntryIsListed(View(), k);
    }

    lemma GarbageHasEntry(c: ClientSession)
      requires Lifetimes.NothingDangles(View()) && c in Model.Garbage(View())
      ensures c in mSessions && (c.mSocket, c) in mClientList.Items
    {
      Lifetimes.GarbageIsListed(View(), c);
    }

    /** Listed sessions that are disconnected and that nothing refers to, each once. */
    method DisconnectedSessions() returns (disconnectedSessions: seq<ClientSession>)
      requires Lifetimes.NothingDangles(View())
      ensures forall c :: c in disconnectedSessions <==> c in Model.Garbage(View())
      ensures forall i, j | 0 <= i < j < |disconnectedSessions| :: disconnectedSessions[i] != disconnectedSessions[j]
    {
      ghost var garbage := Model.Garbage(View());
      forall c | c in garbage ensures (c.mSocket, c) in mClientList.Items {
        GarbageHasEntry(c);
      }
      disconnectedSessions := [];
      var rest := mClientList.Items;
      while rest != {}
        invariant rest <= mClientList.Items
        invariant forall c | c in disconnectedSessions :: c in garbage && (c.mSocket, c) !in rest
        invariant forall c | c in garbage :: c in disconnectedSessions || (c.mSocket, c) in rest
        invariant forall i, j | 0 <= i < j < |disconnectedSessions| :: disconnectedSessions[i] != disconnectedSessions[j]
      {
        var it :| it in rest;
        EntryIsGarbageIff(it.0);
        var client := it.1;
        if !client.IsConnected() && 0 == client.mRefCount {
          disconnectedSessions := disconnectedSessions + [client];
        }
        rest := rest - {it};
      }
    }

    /** No session is deleted twice, and each takes its own list entry along. */
    method DeleteSessions(disconnectedSessions: seq<ClientSession>)
      requires forall c | c in disconnectedSessions :: c in mSessions
      requires forall i, j | 0 <= i < j < |disconnectedSessions| :: disconnectedSessions[i] != disconnectedSessions[j]
      modifies this`mClientList, this`mSessions
      ensures mSessions == old(mSessions) - (set c | c in disconnectedSessions)
      ensures mClientList == old(mClientList) - (set c | c in disconnectedSessions :: c.mSocket)
    {
      for i := 0 to |disconnectedSessions|
        invariant mSessions == old(mSessions) - (set c | c in disconnectedSessions[..i])
        invariant mClientList == old(mClientList) - (set c | c in disconnectedSessions[..i] :: c.mSocket)
      {
        var client := disconnectedSessions[i];
        assert client in mSessions;
        assert disconnectedSessions[..i + 1] == disconnectedSessions[..i] + [client];
        mClientList := mClientList - {client.mSocket};
        mSessions := mSessions - {client};
      }
      assert disconnectedSessions[..|disconnectedSessions|] == disconnectedSessions;
    }

    twostate lemma CollectIsStep(new dead: seq<ClientSession>)
      requires forall c :: c in dead <==> c in old(Model.Garbage(View()))
      requires mSessions == old(mSessions) - (set c | c in dead)
      requires mClientList == old(mClientList) - (set c | c in dead :: c.mSocket)
      requires unchanged(mScheduler) && unchanged(mScheduler.mTaskQueue) && unchanged(mIo)
      requires forall s | s in mSessions :: unchanged(s)
      ensures View() == Model.Step(old(View()), Model.CollectGarbage)
    {
      var garbage := old(Model.Garbage(View()));
      assert garbage == set c | c in dead;
      assert (set c | c in dead :: c.mSocket) == set s | s in garbage :: old(View()).sessions[s].mSocket;
      assert View().sessions == old(View()).sessions - garbage;
    }

    lemma GarbageSendsNothing()
      requires Lifetimes.Inv(View())
      ensures forall c | c in Model.Garbage(View()) :: c in mSessions && c !in mIo.mSends
    {
      forall c | c in Model.Garbage(View()) ensures c in mSessions && c !in mIo.mSends {
        assert View().sessions[c].mRefCount == Lifetimes.References(View(), c);
      }
    }

    twostate lemma CollectingStaysValid()
      requires old(Valid()) && mScheduler.Valid()
      requires mSessions <= old(mSessions) && mIo.mSends == old(mIo.mSends)
      requires forall s | s in mIo.mSends :: s in mSessions
      requires forall s | s in mSessions ::
                 unchanged(s) && unchanged(s.mSendBuffer) && unchanged(s.mSendBuffer.mBuffer)
      ensures Valid()
    {
      hide ClientSession.Valid;
      forall s | s in mSessions ensures s.Valid() {
        assert old(s.Valid());
      }
    }

    method CollectGarbageSessions()
      requires Valid() && Lifetimes.Inv(View())
      modifies this`mClientList, this`mSessions
      ensures Valid() && View() == Model.Step(old(View()), Model.CollectGarbage)
    {
      hide View, Model.Step, Model.Garbage, ClientSession.Valid;
      var disconnectedSessions := DisconnectedSessions();
      GarbageSendsNothing();
      DeleteSessions(disconnectedSessions);
      CollectingStaysValid();
      CollectIsStep(disconnectedSessions);
    }
  }
}
