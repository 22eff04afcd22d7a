/** The client session and the scheduler as the server has them: objects whose fields the
    methods update in place. They refer to each other, so they share a module. */
module Sessions {
  import opened Ticks
  import opened JobQueue
  import opened TaskLoop
  import opened SessionTimers
  import opened CircularBuffers
  import Model = ServerModel
  import Stream = OutgoingStream

  const BUFSIZE: nat := 1024 * 10

  /** The receives and sends the operating system has not completed yet. */
  class PendingIO {
    ghost var mRecvs: multiset<ClientSession>
    ghost var mSends: multiset<ClientSession>

    constructor ()
      ensures mRecvs == mSends == multiset{}
    {
      mRecvs, mSends := multiset{}, multiset{};
    }
  }

  class ClientSession {
    const mSocket: int
    var mConnected: bool
    var mLogon: bool
    var mRefCount: int
    var mPlayerId: int
    var mPosX: real
    var mPosY: real
    const mSendBuffer: CircularBuffer
    /** What has become of the bytes sent through this session. */
    ghost var mStream: Stream.Outgoing

    /** The stream's bookkeeping agrees with the real buffer and the connection flag. Until
        something is removed the stored bytes start at the front of the buffer. */
    ghost predicate Valid()
      reads this`mStream, this`mConnected, mSendBuffer, mSendBuffer.mBuffer
    {
      && mSendBuffer.Valid()
      && mStream.buffered == mSendBuffer.Contents()
      && mStream.open == mConnected
      && Stream.Accounted(mStream)
      && mSendBuffer.mBuffer.Length == BUFSIZE
      && (mStream.acked == 0 ==> mSendBuffer.mARegionPointer == 0)
    }

    ghost function State(): Model.SessionState
      reads this
    {
      Model.SessionState(mSocket, mConnected, mLogon, mRefCount)
    }

    constructor (socket: int)
      ensures Valid() && fresh(mSendBuffer) && fresh(mSendBuffer.mBuffer)
      ensures State() == Model.SessionState(socket, false, false, 0)
      ensures mStream == Stream.FRESH.(open := false)
      ensures mSendBuffer.WriteSpace() == 10240
      ensures mPlayerId == -1 && mPosX == 0.0 && mPosY == 0.0
    {
      mSocket, mConnected, mLogon, mRefCount := socket, false, false, 0;
      mPlayerId, mPosX, mPosY := -1, 0.0, 0.0;
      mSendBuffer := new CircularBuffer(BUFSIZE);
      mStream := Stream.FRESH.(open := false);
    }

    predicate IsConnected()
      reads this
    {
      mConnected
    }

    // ---------- RefCountable ----------

    method IncRefCount()
      modifies this`mRefCount
      ensures mRefCount == old(mRefCount) + 1
    {
      mRefCount := mRefCount + 1;
    }

    method DecRefCount()
      modifies this`mRefCount
      ensures mRefCount == old(mRefCount) - 1
    {
      mRefCount := mRefCount - 1;
    }

    // ---------- I/O ----------

    method OnConnect(io: PendingIO, recvOk: bool) returns (ok: bool)
      requires Valid()
      modifies this`mConnected, this`mRefCount, this`mStream, io`mRecvs
      ensures Valid() && mConnected && ok == recvOk
      ensures mStream == old(mStream).(open := true)
      ensures mRefCount == old(mRefCount) + (if ok then 1 else 0)
      ensures io.mRecvs == old(io.mRecvs) + (if ok then multiset{this} else multiset{})
    {
      mConnected := true;
      mStream := mStream.(open := true);
      ok := PostRecv(io, recvOk);
    }

    method PostRecv(io: PendingIO, recvOk: bool) returns (ok: bool)
      modifies this`mRefCount, io`mRecvs
      ensures ok <==> mConnected && recvOk
      ensures mRefCount == old(mRefCount) + (if ok then 1 else 0)
      ensures io.mRecvs == old(io.mRecvs) + (if ok then multiset{this} else multiset{})
    {
      if !IsConnected() {
        return false;
      }
      if !recvOk {
        return false;
      }
      io.mRecvs := io.mRecvs + multiset{this};
      IncRefCount();
      return true;
    }

    method Disconnect(lingerOk: bool)
      requires Valid()
      modifies this`mConnected, this`mStream
      ensures Valid()
      ensures mConnected <==> old(mConnected) && !lingerOk
      ensures mStream == Stream.Step(old(mStream), Stream.Close(lingerOk))
    {
      if !IsConnected() {
        return;
      }
      if !lingerOk {
        return;
      }
      mConnected := false;
      mStream := mStream.(open := false);
    }

    /** Until a byte is removed the write space is the whole buffer but for what was accepted. */
    lemma WholeBufferIsFree()
      requires Valid() && mStream.acked == 0
      ensures mSendBuffer.WriteSpace() == 10240 - |mStream.accepted|
    {
      mSendBuffer.WriteSpaceIsAllFreeIff();
    }

    /** The packet joins the stream whole or not at all. */
    method SendRequest(pkt: seq<byte>, lingerOk: bool) returns (ok: bool)
      requires Valid()
      modifies this`mConnected, this`mStream, mSendBuffer, mSendBuffer.mBuffer
      ensures Valid()
      ensures ok <==> old(mConnected) && |pkt| <= old(mSendBuffer.WriteSpace())
      ensures !ok ==> mSendBuffer.WriteSpace() == old(mSendBuffer.WriteSpace())
      ensures old(mConnected) && old(mStream.acked) == 0 ==> (ok <==> |old(mStream.accepted)| + |pkt| <= 10240)
      ensures mConnected <==> old(mConnected) && (ok || !lingerOk)
      ensures mStream == Stream.Step(old(mStream), Stream.Send(pkt, |pkt| <= old(mSendBuffer.WriteSpace()), lingerOk))
    {
      hide CircularBuffer.Valid, CircularBuffer.Contents, CircularBuffer.WriteSpace;
      if mStream.acked == 0 {
        WholeBufferIsFree();
      }
      if !IsConnected() {
        return false;
      }
      var written := mSendBuffer.Write(pkt);
      if !written {
        Disconnect(lingerOk);
        return false;
      }
      Stream.StepKeepsAccount(mStream, Stream.Send(pkt, true, lingerOk));
      mStream := Stream.Step(mStream, Stream.Send(pkt, true, lingerOk));
      return true;
    }

    /** Two calls that leave a gap, on the real buffer: a packet that does not fit, with a
        disconnect that fails, and a shorter one that fits. */
    method DropThenAccept(dropped: seq<byte>, later: seq<byte>)
      requires Valid() && mConnected && |dropped| > mSendBuffer.WriteSpace() >= |later| > 0
      modifies this`mConnected, this`mStream, mSendBuffer, mSendBuffer.mBuffer
      ensures Valid() && mConnected
      ensures var acts := [Stream.Send(dropped, false, false), Stream.Send(later, true, true)];
              && Stream.IsRun(old(mStream), acts) && Stream.Resumes(old(mStream), acts)
              && mStream == Stream.RunEnd(old(mStream), acts)
              && mStream.accepted == old(mStream.accepted) + later
    {
      hide CircularBuffer.Valid, CircularBuffer.Contents, CircularBuffer.WriteSpace;
      ghost var st := mStream;
      Stream.FailedDisconnectLeavesGap(st, dropped, later, mSendBuffer.WriteSpace());
      var refused := SendRequest(dropped, false);
      ghost var mid := mStream;
      assert mid == Stream.Step(st, Stream.Send(dropped, false, false));
      var ok := SendRequest(later, true);
      Stream.RunOfOneMore(mid, Stream.Send(later, true, true), []);
      Stream.RunOfOneMore(st, Stream.Send(dropped, false, false), [Stream.Send(later, true, true)]);
      assert [Stream.Send(later, true, true)] + [] == [Stream.Send(later, true, true)];
      assert [Stream.Send(dropped, false, false)] + [Stream.Send(later, true, true)]
          == [Stream.Send(dropped, false, false), Stream.Send(later, true, true)];
    }

    /** What SendFlush asks the socket to send: the oldest contiguous bytes. */
    ghost function NextFlush(): (act: Stream.Act)
      requires Valid()
      reads this`mStream, this`mConnected, mSendBuffer, mSendBuffer.mBuffer
      ensures act.Flush? && Stream.Enabled(mStream, act)
    {
      Stream.Flush(mSendBuffer.GetContiguiousBytes())
    }

    /** The bytes it points the socket at are the accepted ones that come next. */
    lemma FlushedBytesAreNextAccepted()
      requires Valid() && mStream.buffered != []
      ensures var start, len := mSendBuffer.GetBufferStart(), mSendBuffer.GetContiguiousBytes();
              && start.At? && len > 0
              && start.offset + len <= mSendBuffer.mBuffer.Length
              && mStream.acked + len <= |mStream.accepted|
              && mSendBuffer.mBuffer[start.offset..start.offset + len]
              == mStream.accepted[mStream.acked..mStream.acked + len]
    {
      var len := mSendBuffer.GetContiguiousBytes();
      assert mStream.buffered[..len] == mStream.accepted[mStream.acked..mStream.acked + len];
    }

    method SendFlush(io: PendingIO, sendOk: bool) returns (ok: bool)
      requires Valid()
      modifies this`mRefCount, this`mStream, io`mSends
      ensures Valid()
      ensures ok <==> mConnected && (mStream.buffered == [] || sendOk)
      ensures var posts := mConnected && mStream.buffered != [] && sendOk;
              && mRefCount == old(mRefCount) + (if posts then 1 else 0)
              && io.mSends == old(io.mSends) + (if posts then multiset{this} else multiset{})
              && mStream == (if posts then Stream.Step(old(mStream), old(NextFlush())) else old(mStream))
              && var len := old(mSendBuffer.GetContiguiousBytes());
                 posts ==> mStream.posts == old(mStream.posts) + [Stream.Segment(old(mStream.acked), len)]
    {
      hide CircularBuffer.Valid, CircularBuffer.Contents, CircularBuffer.GetContiguiousBytes, Stream.Step;
      Stream.StepPosts(mStream, NextFlush());
      Stream.StepKeepsAccount(mStream, NextFlush());
      if !IsConnected() {
        return false;
      }
      if mSendBuffer.GetContiguiousBytes() == 0 {
        return true;
      }
      if !sendOk {
        return false;
      }
      mStream := Stream.Step(mStream, NextFlush());
      io.mSends := io.mSends + multiset{this};
      IncRefCount();
      return true;
    }

    /** A completion of more than is stored empties the buffer; one of at least the first
        stretch leaves a single stretch. */
    method OnWriteComplete(len: nat)
      requires Valid() && mConnected && Stream.Enabled(mStream, Stream.Complete(len))
      modifies this`mStream, mSendBuffer, mSendBuffer.mBuffer
      ensures Valid()
      ensures mStream == Stream.Step(old(mStream), Stream.Complete(len))
      ensures mStream.buffered
           == if len <= |old(mStream.buffered)| then old(mStream.buffered)[len..] else []
      ensures old(mSendBuffer.GetContiguiousBytes()) <= len
              ==> mSendBuffer.GetContiguiousBytes() == |mStream.buffered|
    {
      hide CircularBuffer.Valid, CircularBuffer.Contents, CircularBuffer.GetContiguiousBytes, Stream.Step, Stream.Accounted;
      Stream.StepKeepsAccount(mStream, Stream.Complete(len));
      Stream.CompletionRemoves(mStream, len);
      mSendBuffer.Remove(len);
      mStream := Stream.Step(mStream, Stream.Complete(len));
    }

    /** The completion routine of a receive. What packet handlers do in between is left to
        the calls they make. */
    method RecvCompletion(io: PendingIO, error: bool, recvOk: bool, lingerOk: bool)
      requires Valid()
      modifies this`mRefCount, this`mConnected, this`mStream, io`mRecvs
      ensures Valid() && mStream == old(mStream).(open := mConnected)
      ensures var again := old(mConnected) && recvOk && !error;
              && mRefCount == old(mRefCount) - (if again then 0 else 1)
              && mConnected == (old(mConnected) && (again || !lingerOk))
              && io.mRecvs == old(io.mRecvs) + (if again then multiset{this} else multiset{})
    {
      DecRefCount();
      if !IsConnected() {
        return;
      }
      if error {
        Disconnect(lingerOk);
        return;
      }
      var ok := PostRecv(io, recvOk);
      if !ok {
        Disconnect(lingerOk);
      }
    }

    /** The completion routine of a send. */
    method SendCompletion(error: bool, cbTransferred: nat, lingerOk: bool)
      requires Valid()
      requires Stream.Enabled(mStream, if error then Stream.Fail(lingerOk) else Stream.Complete(cbTransferred))
      modifies this`mRefCount, this`mConnected, this`mStream, mSendBuffer, mSendBuffer.mBuffer
      ensures Valid() && mRefCount == old(mRefCount) - 1
      ensures mConnected <==> old(mConnected) && !(error && lingerOk)
      ensures mStream
           == Stream.Step(old(mStream), if error then Stream.Fail(lingerOk) else Stream.Complete(cbTransferred))
      ensures !error && old(mConnected) && old(mSendBuffer.GetContiguiousBytes()) <= cbTransferred
              ==> mSendBuffer.GetContiguiousBytes() == |mStream.buffered|
    {
      DecRefCount();
      if !IsConnected() {
        mStream := mStream.(posts := mStream.posts[1..]);
        return;
      }
      if error {
        mStream := mStream.(posts := mStream.posts[1..]);
        Disconnect(lingerOk);
        return;
      }
      OnWriteComplete(cbTransferred);
    }

    /** A flush and the completion of all it posted. */
    method FlushRound(io: PendingIO)
      requires Valid() && mConnected && mStream.posts == []
      modifies this`mRefCount, this`mConnected, this`mStream, io`mSends, mSendBuffer, mSendBuffer.mBuffer
      ensures Valid() && mConnected && mStream.posts == [] && mRefCount == old(mRefCount)
      ensures mStream.accepted == old(mStream.accepted)
      ensures mStream.buffered == old(mStream.buffered)[old(mSendBuffer.GetContiguiousBytes())..]
      ensures mSendBuffer.GetContiguiousBytes() == |mStream.buffered|
    {
      hide CircularBuffer.Valid, CircularBuffer.Contents;
      var len := mSendBuffer.GetContiguiousBytes();
      var ok := SendFlush(io, true);
      if len > 0 {
        io.mSends := io.mSends - multiset{this};
        SendCompletion(false, len, true);
      }
    }

    /** However the stored bytes wrap, two such rounds send all of them. */
    method TwoRoundsEmptyBuffer(io: PendingIO)
      requires Valid() && mConnected && mStream.posts == []
      modifies this`mRefCount, this`mConnected, this`mStream, io`mSends, mSendBuffer, mSendBuffer.mBuffer
      ensures Valid() && mConnected && mStream.buffered == [] && mRefCount == old(mRefCount)
      ensures mStream.accepted == old(mStream.accepted) && mStream.acked == |mStream.accepted|
    {
      FlushRound(io);
      FlushRound(io);
    }

    // ---------- Timers ----------

    method OnTick(scheduler: Scheduler)
      requires scheduler.Valid()
      modifies this`mRefCount, scheduler.mTaskQueue
      ensures scheduler.Valid()
      ensures mRefCount == old(mRefCount) + (if mConnected then 1 else 0)
      ensures scheduler.mTaskQueue.c
           == if mConnected then Pushed(old(scheduler.mTaskQueue.c), Model.TimerAt(scheduler.mCurrentTick, this, Task.OnTick))
              else old(scheduler.mTaskQueue.c)
      ensures multiset(scheduler.mTaskQueue.c)
           == old(multiset(scheduler.mTaskQueue.c)) +
              (if mConnected then multiset{Model.TimerAt(scheduler.mCurrentTick, this, Task.OnTick)} else multiset{})
    {
      if !IsConnected() {
        return;
      }
      scheduler.PushTask(this, Task.OnTick, PLAYER_HEART_BEAT);
    }

    method OnDbUpdate(scheduler: Scheduler)
      requires scheduler.Valid()
      modifies this`mRefCount, scheduler.mTaskQueue
      ensures scheduler.Valid()
      ensures mRefCount == old(mRefCount) + (if mConnected then 1 else 0)
      ensures scheduler.mTaskQueue.c
           == if mConnected then Pushed(old(scheduler.mTaskQueue.c), Model.TimerAt(scheduler.mCurrentTick, this, Task.OnDbUpdate))
              else old(scheduler.mTaskQueue.c)
      ensures multiset(scheduler.mTaskQueue.c)
           == old(multiset(scheduler.mTaskQueue.c)) +
              (if mConnected then multiset{Model.TimerAt(scheduler.mCurrentTick, this, Task.OnDbUpdate)} else multiset{})
    {
      if !IsConnected() {
        return;
      }
      scheduler.PushTask(this, Task.OnDbUpdate, PLAYER_DB_UPDATE_INTERVAL);
    }

    /** The first heartbeat and the first database update. */
    method StartTimers(scheduler: Scheduler)
      requires scheduler.Valid()
      modifies this`mLogon, this`mRefCount, scheduler.mTaskQueue
      ensures scheduler.Valid() && mLogon
      ensures mRefCount == old(mRefCount) + (if mConnected then 2 else 0)
      ensures multiset(scheduler.mTaskQueue.c) == old(multiset(scheduler.mTaskQueue.c)) + FirstTimers(scheduler.mCurrentTick)
    {
      mLogon := true;
      OnTick(scheduler);
      OnDbUpdate(scheduler);
    }

    ghost function FirstTimers(now: Tick): multiset<JobElement<ClientSession>>
      reads this`mConnected
    {
      if mConnected then
        multiset{Model.TimerAt(now, this, Task.OnTick)} + multiset{Model.TimerAt(now, this, Task.OnDbUpdate)}
      else multiset{}
    }

    /** `answer` is the login result packet. */
    method LoginDone(scheduler: Scheduler, pid: int, x: real, y: real, answer: seq<byte>, lingerOk: bool)
      requires Valid() && scheduler.Valid()
      modifies this, mSendBuffer, mSendBuffer.mBuffer, scheduler.mTaskQueue
      ensures Valid() && scheduler.Valid() && mLogon
      ensures mPlayerId == pid && mPosX == x && mPosY == y
      ensures mConnected <==> old(mConnected) && (|answer| <= old(mSendBuffer.WriteSpace()) || !lingerOk)
      ensures mStream == Stream.Step(old(mStream), Stream.Send(answer, |answer| <= old(mSendBuffer.WriteSpace()), lingerOk))
      ensures mRefCount == old(mRefCount) + (if mConnected then 2 else 0)
      ensures multiset(scheduler.mTaskQueue.c) == old(multiset(scheduler.mTaskQueue.c)) + FirstTimers(scheduler.mCurrentTick)
    {
      hide CircularBuffer.Valid, CircularBuffer.Contents, CircularBuffer.WriteSpace;
      mPlayerId, mPosX, mPosY := pid, x, y;
      var sent := SendRequest(answer, lingerOk);
      StartTimers(scheduler);
    }
  }

  class Scheduler {
    const mTaskQueue: TaskPriorityQueue<ClientSession>
    var mCurrentTick: Tick

    ghost predicate Valid()
      reads mTaskQueue
    {
      mTaskQueue.Valid()
    }

    constructor (now: Tick)
      ensures Valid() && fresh(mTaskQueue) && mCurrentTick == now && mTaskQueue.c == []
    {
      mCurrentTick := now;
      mTaskQueue := new TaskPriorityQueue();
    }

    /** The due tick is the 32-bit sum of the cached tick and the delay. */
    method PushTask(owner: ClientSession, task: Task, after: Tick)
      requires Valid()
      modifies mTaskQueue, owner`mRefCount
      ensures Valid()
      ensures owner.mRefCount == old(owner.mRefCount) + 1
      ensures mTaskQueue.c == Pushed(old(mTaskQueue.c), JobElement(owner, task, DueTick(mCurrentTick, after)))
      ensures multiset(mTaskQueue.c)
           == old(multiset(mTaskQueue.c)) + multiset{JobElement(owner, task, DueTick(mCurrentTick, after))}
    {
      var dueTimeTick := DueTick(mCurrentTick, after);
      owner.IncRefCount();
      mTaskQueue.Push(JobElement(owner, task, dueTimeTick));
    }

    /** `connected` are the connected ones among the sessions `live`. */
    ghost predicate AreConnected(live: set<ClientSession>, connected: set<ClientSession>)
      reads live`mConnected
    {
      forall s | s in live :: s in connected <==> s.mConnected
    }

    /** The task runs while the scheduler's own reference still keeps its owner alive. */
    method RunTask(e: JobElement<ClientSession>)
      requires Valid() && e.mOwner.mRefCount >= 1
      modifies mTaskQueue, e.mOwner`mRefCount
      ensures Valid() && e.mOwner.mRefCount >= 1
      ensures e.mOwner.mRefCount == old(e.mOwner.mRefCount) + (if e.mOwner.mConnected then 1 else 0)
      ensures mTaskQueue.c
           == if e.mOwner.mConnected then Pushed(old(mTaskQueue.c), Model.TimerAt(mCurrentTick, e.mOwner, e.mTask))
              else old(mTaskQueue.c)
    {
      match e.mTask
      case OnTick => e.mOwner.OnTick(this);
      case OnDbUpdate => e.mOwner.OnDbUpdate(this);
    }

    /** One iteration of the loop of DoTasks, whether or not a due tick wraps: run the
        top, give its reference back, pop. */
    method RunTop(ghost connected: set<ClientSession>)
      requires Valid() && Guard(mCurrentTick, mTaskQueue.c)
      requires var owner := mTaskQueue.c[0].mOwner;
               owner.mRefCount >= 1 && (owner in connected <==> owner.mConnected)
      modifies mTaskQueue, mTaskQueue.c[0].mOwner`mRefCount
      ensures Valid()
      ensures mTaskQueue.c == TimerBody(mCurrentTick, connected, old(mTaskQueue.c))
      ensures var owner := old(mTaskQueue.c[0].mOwner);
              owner.mRefCount == old(mTaskQueue.c[0].mOwner.mRefCount) - (if owner.mConnected then 0 else 1)
    {
      hide IsHeap, Pushed, Popped, TimerBody;
      TimerBodyUnfolds(mCurrentTick, connected, mTaskQueue.c);
      ghost var done := TimerBody(mCurrentTick, connected, mTaskQueue.c);
      var timerJobElem := mTaskQueue.Top();
      RunTask(timerJobElem);
      assert Popped(mTaskQueue.c) == done;
      timerJobElem.mOwner.DecRefCount();
      mTaskQueue.Pop();
    }

    /** References a session has besides the timers in `q`. */
    ghost function Balance(s: ClientSession, q: seq<JobElement<ClientSession>>): int
      reads s`mRefCount
    {
      s.mRefCount - Model.Owned(multiset(q), s)
    }

    /** Everything the queue refers to is live, and counted. */
    ghost predicate KeepsAlive(live: set<ClientSession>, q: seq<JobElement<ClientSession>>)
      reads live`mRefCount
    {
      && (forall e | e in q :: e.mOwner in live)
      && (forall s | s in live :: Balance(s, q) >= 0)
    }

    /** An iteration, wrapped or not, touches no session's other references and keeps
        everything the queue refers to live and counted. */
    method RunCountedTop(ghost live: set<ClientSession>, ghost connected: set<ClientSession>)
      requires Valid() && Guard(mCurrentTick, mTaskQueue.c)
      requires KeepsAlive(live, mTaskQueue.c) && AreConnected(live, connected)
      modifies mTaskQueue, live`mRefCount
      ensures Valid() && KeepsAlive(live, mTaskQueue.c)
      ensures mTaskQueue.c == TimerBody(mCurrentTick, connected, old(mTaskQueue.c))
      ensures forall s | s in live :: Balance(s, mTaskQueue.c) == old(Balance(s, mTaskQueue.c))
    {
      hide IsHeap, TimerBody, Model.Owned;
      ghost var q := mTaskQueue.c;
      Model.TimerBodyOwners(mCurrentTick, connected, q, live);
      Model.OwnerHasTimer(q);
      assert q[0] in q && Balance(q[0].mOwner, q) >= 0;
      RunTop(connected);
      forall s | s in live ensures Balance(s, mTaskQueue.c) == old(Balance(s, mTaskQueue.c)) {
        Model.TimerBodyOwned(mCurrentTick, connected, q, s);
      }
    }

    /** The first `n` iterations of the loop of DoTasks, even of one that never ends: at
        every loop boundary the queue is what the model says, and no session has gained
        or lost a reference other than its timers. */
    method RunFirst(n: nat, ghost live: set<ClientSession>, ghost connected: set<ClientSession>)
      requires Valid() && KeepsAlive(live, mTaskQueue.c) && AreConnected(live, connected)
      modifies mTaskQueue, live`mRefCount
      ensures Valid() && KeepsAlive(live, mTaskQueue.c)
      ensures mTaskQueue.c == TimerLoop(mCurrentTick, connected, old(mTaskQueue.c), n)
      ensures forall s | s in live :: Balance(s, mTaskQueue.c) == old(Balance(s, mTaskQueue.c))
    {
      hide IsHeap, TimerBody, KeepsAlive, AreConnected;
      ghost var end := TimerLoop(mCurrentTick, connected, mTaskQueue.c, n);
      for i := 0 to n
        invariant Valid() && KeepsAlive(live, mTaskQueue.c)
        invariant TimerLoop(mCurrentTick, connected, mTaskQueue.c, n - i) == end
        invariant forall s | s in live :: Balance(s, mTaskQueue.c) == old(Balance(s, mTaskQueue.c))
      {
        if mTaskQueue.c == [] {
          return;
        }
        var timerJobElem := mTaskQueue.Top();
        if mCurrentTick < timerJobElem.mExecutionTick {
          return;
        }
        RunCountedTop(live, connected);
      }
    }

    /** The queue once the loop has run to its end, if it never wraps. */
    ghost function Done(connected: set<ClientSession>): seq<JobElement<ClientSession>>
      reads this`mCurrentTick, mTaskQueue
    {
      TimerLoop(mCurrentTick, connected, mTaskQueue.c, DueCount(multiset(mTaskQueue.c), mCurrentTick))
    }

    /** Without wrap-around an iteration also leaves one due element less and the end of
        the loop as it was. */
    method RunDueTop(ghost live: set<ClientSession>, ghost connected: set<ClientSession>)
      requires Valid() && Guard(mCurrentTick, mTaskQueue.c)
      requires KeepsAlive(live, mTaskQueue.c) && AreConnected(live, connected)
      requires WrapFree(mCurrentTick, connected, multiset(mTaskQueue.c))
      modifies mTaskQueue, live`mRefCount
      ensures Valid() && KeepsAlive(live, mTaskQueue.c)
      ensures WrapFree(mCurrentTick, connected, multiset(mTaskQueue.c))
      ensures Done(connected) == old(Done(connected))
      ensures DueCount(multiset(mTaskQueue.c), mCurrentTick) == old(DueCount(multiset(mTaskQueue.c), mCurrentTick)) - 1
      ensures forall s | s in live :: Balance(s, mTaskQueue.c) == old(Balance(s, mTaskQueue.c))
    {
      hide IsHeap, TimerBody, WrapFree, DueCount, AfterTasks, KeepsAlive, AreConnected;
      TimerBodyAdvances(mCurrentTick, connected, mTaskQueue.c);
      RunCountedTop(live, connected);
    }

    /** DoTasks, under the exact condition for it to return: the loop computes the model's
        loop, does to the queue what the simple specification says, leaves nothing due,
        and lets every session keep the references it has besides its timers. */
    method DoTasks(now: Tick, ghost live: set<ClientSession>, ghost connected: set<ClientSession>)
      requires Valid()
      requires KeepsAlive(live, mTaskQueue.c) && AreConnected(live, connected)
      requires WrapFree(now, connected, multiset(mTaskQueue.c))
      modifies this`mCurrentTick, mTaskQueue, live`mRefCount
      ensures Valid() && mCurrentTick == now && !Guard(now, mTaskQueue.c)
      ensures mTaskQueue.c
           == TimerLoop(now, connected, old(mTaskQueue.c), DueCount(old(multiset(mTaskQueue.c)), now))
      ensures multiset(mTaskQueue.c) == AfterTasks(now, connected, old(multiset(mTaskQueue.c)))
      ensures forall s | s in live :: Balance(s, mTaskQueue.c) == old(Balance(s, mTaskQueue.c))
    {
      hide IsHeap, WrapFree, DueCount, AfterTasks, KeepsAlive, AreConnected;
      TimerLoopRefinesSpec(now, connected, mTaskQueue.c, DueCount(multiset(mTaskQueue.c), now));
      mCurrentTick := now;
      while mTaskQueue.c != []
        invariant mCurrentTick == now && Valid() && KeepsAlive(live, mTaskQueue.c)
        invariant WrapFree(now, connected, multiset(mTaskQueue.c))
        invariant Done(connected)
               == TimerLoop(now, connected, old(mTaskQueue.c), DueCount(old(multiset(mTaskQueue.c)), now))
        invariant forall s | s in live :: Balance(s, mTaskQueue.c) == old(Balance(s, mTaskQueue.c))
        decreases DueCount(multiset(mTaskQueue.c), now)
      {
        var timerJobElem := mTaskQueue.Top();
        if mCurrentTick < timerJobElem.mExecutionTick {
          break;
        }
        RunDueTop(live, connected);
      }
    }
  }
}
