/** The bytes one session sends: accepted into the send buffer, handed to the socket by
    flushes that take the oldest bytes but leave them buffered, and removed when a send
    completes. Sends are delivered and complete in the order they were posted. */
module OutgoingStream {
  import opened CircularBuffers

  /** Bytes `start` to `start + len` of the accepted stream, handed to the socket. */
  datatype Segment = Segment(start: nat, len: nat)

  /** `acked` counts the bytes removed so far; `wire` lists the stream positions of the
      bytes that were delivered, in order of delivery. */
  datatype Outgoing = Outgoing(
    open: bool,
    accepted: seq<byte>,
    acked: nat,
    buffered: seq<byte>,
    posts: seq<Segment>,
    wire: seq<nat>)

  const FRESH: Outgoing := Outgoing(true, [], 0, [], [], [])

  datatype Act =
    | Send(pkt: seq<byte>, fits: bool, lingerOk: bool)
    | Flush(len: nat)
    | Complete(n: nat)
    | Fail(lingerOk: bool)
    | Close(lingerOk: bool)

  /** A flush takes a nonempty stretch of what is buffered; a completion reports some of
      the oldest outstanding segment, or that it failed. */
  predicate Enabled(st: Outgoing, act: Act) {
    match act
    case Flush(len) => st.buffered == [] || 1 <= len <= |st.buffered|
    case Complete(n) => st.posts != [] && 1 <= n <= st.posts[0].len
    case Fail(_) => st.posts != []
    case _ => true
  }

  predicate Flushes(st: Outgoing, act: Act) {
    act.Flush? && st.open && st.buffered != []
  }

  function Positions(start: nat, n: nat): (ps: seq<nat>)
    ensures |ps| == n
  {
    seq(n, i => start + i)
  }

  function Step(st: Outgoing, act: Act): Outgoing
    requires Enabled(st, act)
  {
    match act
    case Send(pkt, fits, lingerOk) =>
      if !st.open then st
      else if fits then st.(accepted := st.accepted + pkt, buffered := st.buffered + pkt)
      else st.(open := !lingerOk)
    case Flush(len) =>
      if Flushes(st, act) then st.(posts := st.posts + [Segment(st.acked, len)]) else st
    case Complete(n) =>
      var next := st.(posts := st.posts[1..]);
      if !st.open then next
      else
        var removed := if n <= |st.buffered| then n else |st.buffered|;
        next.(wire := st.wire + Positions(st.posts[0].start, n),
              acked := st.acked + removed,
              buffered := st.buffered[removed..])
    case Fail(lingerOk) => st.(posts := st.posts[1..], open := st.open && !lingerOk)
    case Close(lingerOk) => st.(open := st.open && !lingerOk)
  }

  /** No send fails on a session that stays open. */
  predicate NoneFails(acts: seq<Act>) {
    forall act | act in acts :: !act.Fail?
  }

  predicate IsRun(st: Outgoing, acts: seq<Act>)
    decreases |acts|
  {
    acts == [] || (Enabled(st, acts[0]) && IsRun(Step(st, acts[0]), acts[1..]))
  }

  function RunEnd(st: Outgoing, acts: seq<Act>): Outgoing
    requires IsRun(st, acts)
    decreases |acts|
  {
    if acts == [] then st else RunEnd(Step(st, acts[0]), acts[1..])
  }

  /** Only flushes post, and only completions take off. */
  lemma StepPosts(st: Outgoing, act: Act)
    requires Enabled(st, act)
    ensures |Step(st, act).posts|
         == if Flushes(st, act) then |st.posts| + 1 else if act.Complete? || act.Fail? then |st.posts| - 1 else |st.posts|
    ensures act.Flush? && !Flushes(st, act) ==> Step(st, act) == st
    ensures Flushes(st, act) ==> Step(st, act) == st.(posts := st.posts + [Segment(st.acked, act.len)])
  {
  }

  lemma RunOfOneMore(st: Outgoing, act: Act, acts: seq<Act>)
    requires Enabled(st, act) && IsRun(Step(st, act), acts)
    ensures IsRun(st, [act] + acts) && RunEnd(st, [act] + acts) == RunEnd(Step(st, act), acts)
  {
    assert ([act] + acts)[1..] == acts;
  }

  /** Every flush of the run finds no send outstanding. */
  predicate OneSendAtATime(st: Outgoing, acts: seq<Act>)
    requires IsRun(st, acts)
    decreases |acts|
  {
    acts == [] ||
    ((Flushes(st, acts[0]) ==> st.posts == []) && OneSendAtATime(Step(st, acts[0]), acts[1..]))
  }

  /** The accepted stream from its beginning, without gap, repetition or reordering. */
  ghost predicate InOrder(wire: seq<nat>) {
    forall i | 0 <= i < |wire| :: wire[i] == i
  }

  // ---------- Accepted = acknowledged ++ buffered ----------

  ghost predicate Accounted(st: Outgoing) {
    && st.acked + |st.buffered| == |st.accepted|
    && st.buffered == st.accepted[st.acked..]
    && st.acked <= |st.wire|
    && (forall p | p in st.posts :: p.len > 0 && p.start <= st.acked)
  }

  lemma StepKeepsAccount(st: Outgoing, act: Act)
    requires Accounted(st) && Enabled(st, act)
    ensures Accounted(Step(st, act))
  {
    match act
    case Send(pkt, _, _) =>
      assert (st.accepted + pkt)[st.acked..] == st.accepted[st.acked..] + pkt;
    case _ =>
  }

  /** Whatever happens, the accepted bytes are the acknowledged ones followed by exactly
      the buffered ones. */
  lemma {:induction false} RunKeepsAccount(st: Outgoing, acts: seq<Act>)
    requires Accounted(st) && IsRun(st, acts)
    ensures Accounted(RunEnd(st, acts))
    ensures RunEnd(st, acts).open ==> st.open
    decreases |acts|
  {
    if acts != [] {
      StepKeepsAccount(st, acts[0]);
      RunKeepsAccount(Step(st, acts[0]), acts[1..]);
    }
  }

  // ---------- The wire ----------

  /** At most one send is outstanding, it starts with the oldest buffered byte, and the
      wire carries exactly the acknowledged bytes in order. */
  ghost predicate Tidy(st: Outgoing) {
    && Accounted(st)
    && InOrder(st.wire)
    && |st.wire| == st.acked
    && (st.posts == [] || (|st.posts| == 1 && st.posts[0].start == st.acked && st.posts[0].len <= |st.buffered|))
  }

  lemma StepKeepsTidy(st: Outgoing, act: Act)
    requires Tidy(st) && Enabled(st, act) && (Flushes(st, act) ==> st.posts == [])
    ensures Tidy(Step(st, act))
  {
    StepKeepsAccount(st, act);
  }

  lemma {:induction false} OneSendAtATimeStaysTidy(st: Outgoing, acts: seq<Act>)
    requires Tidy(st) && IsRun(st, acts) && OneSendAtATime(st, acts)
    ensures Tidy(RunEnd(st, acts))
    decreases |acts|
  {
    if acts != [] {
      StepKeepsTidy(st, acts[0]);
      OneSendAtATimeStaysTidy(Step(st, acts[0]), acts[1..]);
    }
  }

  /** Outstanding segment `i` starts before the wire can have got to it, since each one
      ahead of it delivers at least a byte; or the wire is out of order already. */
  ghost predicate Doomed(st: Outgoing) {
    !InOrder(st.wire) || exists i :: 0 <= i < |st.posts| && st.posts[i].start < |st.wire| + i
  }

  lemma SecondFlushDooms(st: Outgoing, act: Act)
    requires Accounted(st) && Enabled(st, act) && Flushes(st, act) && st.posts != []
    ensures Doomed(Step(st, act))
  {
    var i := |st.posts|;
    assert Step(st, act).posts[i].start < |st.wire| + i;
  }

  lemma StepKeepsDoomed(st: Outgoing, act: Act)
    requires Doomed(st) && Enabled(st, act) && st.open && !act.Fail?
    ensures Doomed(Step(st, act))
  {
    var st' := Step(st, act);
    if !InOrder(st.wire) {
      var k :| 0 <= k < |st.wire| && st.wire[k] != k;
      assert st'.wire[k] != k;
    } else {
      var i :| 0 <= i < |st.posts| && st.posts[i].start < |st.wire| + i;
      if act.Complete? {
        if i == 0 {
          assert st'.wire[|st.wire|] == st.posts[0].start;
        } else {
          assert st'.posts[i - 1] == st.posts[i];
        }
      } else {
        assert st'.posts[i] == st.posts[i];
      }
    }
  }

  lemma {:induction false} DoomedEndsOutOfOrder(st: Outgoing, acts: seq<Act>)
    requires Doomed(st) && IsRun(st, acts) && NoneFails(acts)
    requires RunEnd(st, acts).open && RunEnd(st, acts).posts == []
    ensures !InOrder(RunEnd(st, acts).wire)
    decreases |acts|
  {
    if acts != [] {
      OpenEarlier(st, acts);
      assert acts[0] in acts && forall act | act in acts[1..] :: act in acts;
      StepKeepsDoomed(st, acts[0]);
      DoomedEndsOutOfOrder(Step(st, acts[0]), acts[1..]);
    }
  }

  lemma {:induction false} OpenEarlier(st: Outgoing, acts: seq<Act>)
    requires IsRun(st, acts) && RunEnd(st, acts).open
    ensures st.open
    decreases |acts|
  {
    if acts != [] {
      OpenEarlier(Step(st, acts[0]), acts[1..]);
    }
  }

  lemma {:induction false} TidyIffOneSendAtATime(st: Outgoing, acts: seq<Act>)
    requires Tidy(st) && IsRun(st, acts) && NoneFails(acts)
    requires RunEnd(st, acts).open && RunEnd(st, acts).posts == []
    ensures InOrder(RunEnd(st, acts).wire) <==> OneSendAtATime(st, acts)
    decreases |acts|
  {
    if acts != [] {
      assert acts[0] in acts && forall act | act in acts[1..] :: act in acts;
      if Flushes(st, acts[0]) && st.posts != [] {
        SecondFlushDooms(st, acts[0]);
        DoomedEndsOutOfOrder(Step(st, acts[0]), acts[1..]);
      } else {
        StepKeepsTidy(st, acts[0]);
        TidyIffOneSendAtATime(Step(st, acts[0]), acts[1..]);
      }
    }
  }

  /** Over every run of a connected session that ends with nothing outstanding, the bytes
      on the wire are the accepted stream in order if and only if every flush was made
      with no send outstanding. */
  lemma WireInOrderIffOneSendAtATime(acts: seq<Act>)
    requires IsRun(FRESH, acts) && NoneFails(acts)
    requires RunEnd(FRESH, acts).open && RunEnd(FRESH, acts).posts == []
    ensures InOrder(RunEnd(FRESH, acts).wire) <==> OneSendAtATime(FRESH, acts)
  {
    TidyIffOneSendAtATime(FRESH, acts);
  }

  /** One direction needs no proviso: with one send at a time the wire is at every point,
      failures and disconnects included, exactly the acknowledged bytes in order. */
  lemma OneSendAtATimeKeepsWireInOrder(acts: seq<Act>)
    requires IsRun(FRESH, acts) && OneSendAtATime(FRESH, acts)
    ensures InOrder(RunEnd(FRESH, acts).wire) && |RunEnd(FRESH, acts).wire| == RunEnd(FRESH, acts).acked
  {
    OneSendAtATimeStaysTidy(FRESH, acts);
  }

  // ---------- The wire, for every run ----------

  /** Parallel to the outstanding sends: whether a send that was outstanding when this one
      was posted has completed since. */
  function LateAfter(st: Outgoing, late: seq<bool>, act: Act): seq<bool>
    requires |late| == |st.posts| && Enabled(st, act)
    ensures |LateAfter(st, late, act)| == |Step(st, act).posts|
  {
    match act
    case Flush(_) => if Flushes(st, act) then late + [false] else late
    case Complete(_) => if st.open then seq(|late| - 1, i => true) else late[1..]
    case Fail(_) => late[1..]
    case _ => late
  }

  /** Of two sends that were outstanding together, both complete while the session is
      connected. */
  predicate OverlapDelivers(st: Outgoing, late: seq<bool>, acts: seq<Act>)
    requires IsRun(st, acts) && |late| == |st.posts|
    decreases |acts|
  {
    acts != [] &&
    ((acts[0].Complete? && st.open && late[0]) ||
     OverlapDelivers(Step(st, acts[0]), LateAfter(st, late, acts[0]), acts[1..]))
  }

  /** The wire has kept up, and the sends not known to be late start where it ends. */
  ghost predicate Keeping(st: Outgoing, late: seq<bool>) {
    && Accounted(st)
    && InOrder(st.wire)
    && |st.wire| == st.acked
    && |late| == |st.posts|
    && forall i | 0 <= i < |late| ::
         if late[i] then st.posts[i].start < st.acked
         else st.posts[i].start == st.acked && st.posts[i].len <= |st.buffered|
  }

  lemma StepKeepsKeeping(st: Outgoing, late: seq<bool>, act: Act)
    requires Keeping(st, late) && Enabled(st, act) && !(act.Complete? && st.open && late[0])
    ensures Keeping(Step(st, act), LateAfter(st, late, act))
  {
    StepKeepsAccount(st, act);
    if act.Complete? && st.open {
      var st' := Step(st, act);
      forall i | 0 <= i < |st'.posts| ensures st'.posts[i].start < st'.acked {
        assert st'.posts[i] == st.posts[i + 1] && late[i + 1] in late;
      }
    }
  }

  lemma LateCompletionRepeats(st: Outgoing, late: seq<bool>, act: Act)
    requires Keeping(st, late) && Enabled(st, act) && act.Complete? && st.open && late[0]
    ensures !InOrder(Step(st, act).wire)
  {
    assert Step(st, act).wire[|st.wire|] == st.posts[0].start;
  }

  lemma {:induction false} OutOfOrderStays(st: Outgoing, acts: seq<Act>)
    requires !InOrder(st.wire) && IsRun(st, acts)
    ensures !InOrder(RunEnd(st, acts).wire)
    decreases |acts|
  {
    if acts != [] {
      var k :| 0 <= k < |st.wire| && st.wire[k] != k;
      assert Step(st, acts[0]).wire[k] == st.wire[k];
      OutOfOrderStays(Step(st, acts[0]), acts[1..]);
    }
  }

  lemma {:induction false} KeepingIffNoOverlapDelivers(st: Outgoing, late: seq<bool>, acts: seq<Act>)
    requires Keeping(st, late) && IsRun(st, acts)
    ensures InOrder(RunEnd(st, acts).wire) <==> !OverlapDelivers(st, late, acts)
    ensures !OverlapDelivers(st, late, acts) ==> |RunEnd(st, acts).wire| == RunEnd(st, acts).acked
    decreases |acts|
  {
    if acts != [] {
      if acts[0].Complete? && st.open && late[0] {
        LateCompletionRepeats(st, late, acts[0]);
        OutOfOrderStays(Step(st, acts[0]), acts[1..]);
      } else {
        StepKeepsKeeping(st, late, acts[0]);
        KeepingIffNoOverlapDelivers(Step(st, acts[0]), LateAfter(st, late, acts[0]), acts[1..]);
      }
    }
  }

  /** Over every run whatever, with failures, disconnects and sends still outstanding, the
      wire carries the accepted stream in order, up to what is acknowledged, if and only
      if never two sends that were outstanding together both completed while connected. */
  lemma WireInOrderIffNoOverlapDelivers(acts: seq<Act>)
    requires IsRun(FRESH, acts)
    ensures InOrder(RunEnd(FRESH, acts).wire) <==> !OverlapDelivers(FRESH, [], acts)
    ensures InOrder(RunEnd(FRESH, acts).wire) ==>
              |RunEnd(FRESH, acts).wire| == RunEnd(FRESH, acts).acked <= |RunEnd(FRESH, acts).accepted|
  {
    KeepingIffNoOverlapDelivers(FRESH, [], acts);
    RunKeepsAccount(FRESH, acts);
  }

  /** What a caller can check before a flush: the wire stays in order on every
      continuation that flushes one at a time if and only if no send is outstanding now. */
  lemma FlushIsSafeIffNoneOutstanding(st: Outgoing, len: nat)
    requires Tidy(st) && Enabled(st, Flush(len)) && Flushes(st, Flush(len))
    ensures (forall acts | IsRun(Step(st, Flush(len)), acts) && OneSendAtATime(Step(st, Flush(len)), acts) ::
               InOrder(RunEnd(Step(st, Flush(len)), acts).wire))
       <==> st.posts == []
  {
    var flushed := Step(st, Flush(len));
    if st.posts == [] {
      StepKeepsTidy(st, Flush(len));
      forall acts | IsRun(flushed, acts) && OneSendAtATime(flushed, acts) ensures InOrder(RunEnd(flushed, acts).wire) {
        OneSendAtATimeStaysTidy(flushed, acts);
      }
    } else {
      var acts := [Complete(1), Complete(1)];
      var once := Step(flushed, Complete(1));
      var twice := Step(once, Complete(1));
      assert flushed.posts == [st.posts[0], Segment(st.acked, len)];
      assert once.posts == [Segment(st.acked, len)] && |once.wire| == st.acked + 1;
      assert twice.wire[st.acked + 1] == st.acked;
      RunOfOneMore(once, Complete(1), []);
      RunOfOneMore(flushed, Complete(1), [Complete(1)]);
      assert [Complete(1)] + [] == [Complete(1)] && [Complete(1)] + [Complete(1)] == acts;
      assert acts[1..] == [Complete(1)];
      assert OneSendAtATime(flushed, acts);
      assert !InOrder(RunEnd(flushed, acts).wire);
    }
  }

  /** A concrete case: a packet of two bytes flushed twice before the first send
      completes is delivered twice. */
  lemma SecondFlushRepeats(b: byte, c: byte)
    ensures var acts := [Send([b, c], true, true), Flush(2), Flush(2), Complete(2), Complete(2)];
            IsRun(FRESH, acts) && RunEnd(FRESH, acts).wire == [0, 1, 0, 1]
  {
    var s1 := Step(FRESH, Send([b, c], true, true));
    var s2 := Step(s1, Flush(2));
    var s3 := Step(s2, Flush(2));
    var s4 := Step(s3, Complete(2));
    var s5 := Step(s4, Complete(2));
    assert s3.posts == [Segment(0, 2), Segment(0, 2)];
    assert s4.wire == [0, 1] && s4.acked == 2;
    assert s5.wire == [0, 1, 0, 1];
    RunOfOneMore(s4, Complete(2), []);
    RunOfOneMore(s3, Complete(2), [Complete(2)]);
    RunOfOneMore(s2, Flush(2), [Complete(2), Complete(2)]);
    RunOfOneMore(s1, Flush(2), [Flush(2), Complete(2), Complete(2)]);
    RunOfOneMore(FRESH, Send([b, c], true, true), [Flush(2), Flush(2), Complete(2), Complete(2)]);
    assert [Complete(2)] + [] == [Complete(2)];
    assert [Complete(2)] + [Complete(2)] == [Complete(2), Complete(2)];
    assert [Flush(2)] + [Complete(2), Complete(2)] == [Flush(2), Complete(2), Complete(2)];
    assert [Flush(2)] + [Flush(2), Complete(2), Complete(2)] == [Flush(2), Flush(2), Complete(2), Complete(2)];
    assert [Send([b, c], true, true)] + [Flush(2), Flush(2), Complete(2), Complete(2)]
        == [Send([b, c], true, true), Flush(2), Flush(2), Complete(2), Complete(2)];
  }

  // ---------- Bytes removed without having been sent ----------

  /** A completion takes from the buffer exactly as many of the oldest bytes as it reports,
      or all of them when there are fewer, whatever bytes it reported on. */
  lemma CompletionRemoves(st: Outgoing, n: nat)
    requires Accounted(st) && st.open && Enabled(st, Complete(n))
    ensures var st' := Step(st, Complete(n));
            && (n <= |st.buffered| ==> st'.buffered == st.buffered[n..] && st'.acked == st.acked + n)
            && (n > |st.buffered| ==> st'.buffered == [] && st'.acked == |st.accepted|)
            && st'.accepted == st.accepted && st'.open
  {
  }

  /** What was posted had been accepted, and what was delivered has been removed. */
  ghost predicate Within(st: Outgoing) {
    && Accounted(st)
    && (forall p | p in st.posts :: p.start + p.len <= |st.accepted|)
    && (forall k | k in st.wire :: k < st.acked)
  }

  lemma StepKeepsWithin(st: Outgoing, act: Act)
    requires Within(st) && Enabled(st, act)
    ensures Within(Step(st, act))
  {
    StepKeepsAccount(st, act);
    var st' := Step(st, act);
    if act.Complete? && st.open {
      var front := st.posts[0];
      assert front in st.posts;
      forall k | k in st'.wire ensures k < st'.acked {
        assert k in st.wire || k in Positions(front.start, act.n);
      }
    }
  }

  /** The step removes an accepted byte that was never on the wire. */
  ghost predicate Loses(st: Outgoing, act: Act)
    requires Enabled(st, act)
  {
    exists k :: st.acked <= k < Step(st, act).acked && k !in Step(st, act).wire
  }

  /** The byte accepted last is still buffered, and the `n` bytes of the oldest outstanding
      send do not reach it. */
  predicate FallsShort(st: Outgoing, n: nat)
    requires st.posts != []
  {
    st.buffered != [] && st.posts[0].start + n < |st.accepted|
  }

  /** Exactly when it completes a send whose first byte had been removed already, because
      a send that overlapped it was delivered, and that falls short of what is buffered. */
  lemma LosesIff(st: Outgoing, act: Act)
    requires Within(st) && Enabled(st, act)
    ensures Loses(st, act) <==> act.Complete? && st.open && st.posts[0].start < st.acked && FallsShort(st, act.n)
  {
    var st' := Step(st, act);
    if act.Complete? && st.open {
      var front := st.posts[0];
      var sent := Positions(front.start, act.n);
      assert front in st.posts;
      forall k | st.acked <= k < st'.acked ensures k in st'.wire <==> k < front.start + act.n {
        if k < front.start + act.n {
          assert sent[k - front.start] == k;
        }
      }
      if front.start < st.acked && FallsShort(st, act.n) {
        assert st.acked <= st'.acked - 1 && st'.acked - 1 !in st'.wire;
      }
    }
  }

  ghost predicate LosesSome(st: Outgoing, acts: seq<Act>)
    requires IsRun(st, acts)
    decreases |acts|
  {
    acts != [] && (Loses(st, acts[0]) || LosesSome(Step(st, acts[0]), acts[1..]))
  }

  /** A send completes while connected after one that overlapped it has, and falls short
      of what is buffered by then. */
  predicate OverlapDrops(st: Outgoing, late: seq<bool>, acts: seq<Act>)
    requires IsRun(st, acts) && |late| == |st.posts|
    decreases |acts|
  {
    acts != [] &&
    ((acts[0].Complete? && st.open && late[0] && FallsShort(st, acts[0].n)) ||
     OverlapDrops(Step(st, acts[0]), LateAfter(st, late, acts[0]), acts[1..]))
  }

  /** A send is late exactly when its first byte has been removed. */
  ghost predicate LateIsRemoved(st: Outgoing, late: seq<bool>) {
    && |late| == |st.posts|
    && forall i | 0 <= i < |late| :: late[i] <==> st.posts[i].start < st.acked
  }

  lemma StepKeepsLate(st: Outgoing, late: seq<bool>, act: Act)
    requires Within(st) && LateIsRemoved(st, late) && Enabled(st, act)
    ensures LateIsRemoved(Step(st, act), LateAfter(st, late, act))
  {
    var st' := Step(st, act);
    if act.Complete? && st.open {
      forall i | 0 <= i < |st'.posts| ensures st'.posts[i].start < st'.acked {
        assert st'.posts[i] == st.posts[i + 1] && st.posts[i + 1] in st.posts;
      }
    }
  }

  lemma {:induction false} LosesSomeIff(st: Outgoing, late: seq<bool>, acts: seq<Act>)
    requires Within(st) && LateIsRemoved(st, late) && IsRun(st, acts)
    ensures LosesSome(st, acts) <==> OverlapDrops(st, late, acts)
    ensures OverlapDrops(st, late, acts) ==> OverlapDelivers(st, late, acts)
    decreases |acts|
  {
    if acts != [] {
      LosesIff(st, acts[0]);
      StepKeepsWithin(st, acts[0]);
      StepKeepsLate(st, late, acts[0]);
      LosesSomeIff(Step(st, acts[0]), LateAfter(st, late, acts[0]), acts[1..]);
    }
  }

  /** Over every run accepted bytes are removed without having been on the wire if and
      only if a send completes after one that overlapped it, and falls short of what is
      buffered by then. So it never happens while the wire stays in order. */
  lemma BytesAreLostIff(acts: seq<Act>)
    requires IsRun(FRESH, acts)
    ensures LosesSome(FRESH, acts) <==> OverlapDrops(FRESH, [], acts)
    ensures InOrder(RunEnd(FRESH, acts).wire) ==> !LosesSome(FRESH, acts)
  {
    LosesSomeIff(FRESH, [], acts);
    WireInOrderIffNoOverlapDelivers(acts);
  }

  /** A concrete case: after a packet of two bytes flushed twice, a third byte accepted
      between the two completions is dropped unsent. */
  lemma SecondFlushDropsNext(b: byte, c: byte, x: byte)
    ensures var acts := [Send([b, c], true, true), Flush(2), Flush(2), Complete(2)] + [Send([x], true, true), Complete(2)];
            && IsRun(FRESH, acts) && LosesSome(FRESH, acts)
            && var end := RunEnd(FRESH, acts);
               end.accepted == [b, c, x] && end.wire == [0, 1, 0, 1] && end.buffered == [] && end.posts == []
  {
    var s1 := Step(FRESH, Send([b, c], true, true));
    var s2 := Step(s1, Flush(2));
    var s3 := Step(s2, Flush(2));
    var s4 := Step(s3, Complete(2));
    var s5 := Step(s4, Send([x], true, true));
    var s6 := Step(s5, Complete(2));
    assert s3.posts == [Segment(0, 2), Segment(0, 2)];
    assert s4.wire == [0, 1] && s4.acked == 2 && s4.buffered == [];
    assert s5.accepted == [b, c, x] && s5.buffered == [x] && s5.posts == [Segment(0, 2)];
    assert s5.wire == [0, 1] && s5.acked == 2;
    assert Positions(0, 2) == [0, 1];
    assert s6.buffered == [] && s6.acked == 3;
    assert s6.wire == [0, 1, 0, 1];
    assert Loses(s5, Complete(2)) by { assert s6.acked == 3 && 2 !in s6.wire; }
    LossComesAfter(s5, Complete(2), []);
    LossComesLater(s4, Send([x], true, true), [Complete(2)] + []);
    LossComesLater(s3, Complete(2), [Send([x], true, true)] + ([Complete(2)] + []));
    var tail := [Complete(2)] + ([Send([x], true, true)] + ([Complete(2)] + []));
    LossComesLater(s2, Flush(2), tail);
    LossComesLater(s1, Flush(2), [Flush(2)] + tail);
    LossComesLater(FRESH, Send([b, c], true, true), [Flush(2)] + ([Flush(2)] + tail));
    assert [Send([b, c], true, true)] + ([Flush(2)] + ([Flush(2)] + tail))
        == [Send([b, c], true, true), Flush(2), Flush(2), Complete(2)] + [Send([x], true, true), Complete(2)];
  }

  lemma LossComesAfter(st: Outgoing, act: Act, acts: seq<Act>)
    requires Enabled(st, act) && IsRun(Step(st, act), acts) && Loses(st, act)
    ensures IsRun(st, [act] + acts) && LosesSome(st, [act] + acts)
    ensures RunEnd(st, [act] + acts) == RunEnd(Step(st, act), acts)
  {
    RunOfOneMore(st, act, acts);
  }

  lemma LossComesLater(st: Outgoing, act: Act, acts: seq<Act>)
    requires Enabled(st, act) && IsRun(Step(st, act), acts) && LosesSome(Step(st, act), acts)
    ensures IsRun(st, [act] + acts) && LosesSome(st, [act] + acts)
    ensures RunEnd(st, [act] + acts) == RunEnd(Step(st, act), acts)
  {
    RunOfOneMore(st, act, acts);
    assert ([act] + acts)[1..] == acts;
  }

  // ---------- After a rejected packet ----------

  /** Once closed, nothing is accepted, flushed, delivered or acknowledged any more: the
      sends still outstanding are only taken off from the front. */
  lemma {:induction false} ClosedStaysClosed(st: Outgoing, acts: seq<Act>)
    requires !st.open && IsRun(st, acts)
    ensures var end := RunEnd(st, acts);
            && end == st.(posts := end.posts)
            && |end.posts| <= |st.posts|
            && end.posts == st.posts[|st.posts| - |end.posts|..]
    decreases |acts|
  {
    if acts != [] {
      ClosedStaysClosed(Step(st, acts[0]), acts[1..]);
    }
  }

  predicate Closes(act: Act) {
    match act
    case Send(_, fits, _) => !fits
    case Fail(lingerOk) => lingerOk
    case Close(lingerOk) => lingerOk
    case _ => false
  }

  function Offered(act: Act): seq<byte> {
    if act.Send? then act.pkt else []
  }

  /** The packets offered before the first overflow or disconnect. */
  function UpToClosing(acts: seq<Act>): seq<byte>
    decreases |acts|
  {
    if acts == [] || Closes(acts[0]) then []
    else Offered(acts[0]) + UpToClosing(acts[1..])
  }

  /** A packet finds the session connected and fits the send buffer. */
  predicate AcceptsSome(st: Outgoing, acts: seq<Act>)
    requires IsRun(st, acts)
    decreases |acts|
  {
    acts != [] &&
    ((st.open && acts[0].Send? && acts[0].fits && acts[0].pkt != []) || AcceptsSome(Step(st, acts[0]), acts[1..]))
  }

  /** That happens after the first overflow or disconnect. */
  predicate Resumes(st: Outgoing, acts: seq<Act>)
    requires IsRun(st, acts)
    decreases |acts|
  {
    acts != [] &&
    if Closes(acts[0]) then AcceptsSome(Step(st, acts[0]), acts[1..])
    else Resumes(Step(st, acts[0]), acts[1..])
  }

  lemma AppendIsAssociative(a: seq<byte>, b: seq<byte>, c: seq<byte>)
    ensures (a + b) + c == a + (b + c)
  {
  }

  lemma {:induction false} AcceptedGrowsIff(st: Outgoing, acts: seq<Act>)
    requires IsRun(st, acts)
    ensures |RunEnd(st, acts).accepted| >= |st.accepted|
    ensures RunEnd(st, acts).accepted == st.accepted <==> !AcceptsSome(st, acts)
    decreases |acts|
  {
    if acts != [] {
      var next := Step(st, acts[0]);
      assert |next.accepted| >= |st.accepted|;
      assert next.accepted == st.accepted <==> !(st.open && acts[0].Send? && acts[0].fits && acts[0].pkt != []);
      AcceptedGrowsIff(next, acts[1..]);
    }
  }

  /** No gap, exactly: the accepted stream is the packets offered before the first overflow
      or disconnect, whole and in order and nothing else, if and only if no packet is
      accepted after it. */
  lemma {:induction false} AcceptedUpToClosingIff(st: Outgoing, acts: seq<Act>)
    requires st.open && IsRun(st, acts)
    ensures RunEnd(st, acts).accepted == st.accepted + UpToClosing(acts) <==> !Resumes(st, acts)
    decreases |acts|
  {
    if acts == [] {
      assert st.accepted + [] == st.accepted;
    } else {
      var next, rest := Step(st, acts[0]), acts[1..];
      if Closes(acts[0]) {
        assert st.accepted + UpToClosing(acts) == st.accepted == next.accepted;
        AcceptedGrowsIff(next, rest);
      } else {
        assert next.open && next.accepted == st.accepted + Offered(acts[0]);
        AcceptedUpToClosingIff(next, rest);
        AppendIsAssociative(st.accepted, Offered(acts[0]), UpToClosing(rest));
      }
    }
  }

  /** The disconnects that overflows cause succeed. */
  predicate OverflowsDisconnect(acts: seq<Act>) {
    forall act | act in acts :: act.Send? && !act.fits ==> act.lingerOk
  }

  lemma {:induction false} ClosedAcceptsNone(st: Outgoing, acts: seq<Act>)
    requires !st.open && IsRun(st, acts)
    ensures !AcceptsSome(st, acts)
    decreases |acts|
  {
    if acts != [] {
      ClosedAcceptsNone(Step(st, acts[0]), acts[1..]);
    }
  }

  lemma {:induction false} DisconnectedNeverResumes(st: Outgoing, acts: seq<Act>)
    requires st.open && IsRun(st, acts) && OverflowsDisconnect(acts)
    ensures !Resumes(st, acts)
    decreases |acts|
  {
    if acts != [] {
      assert acts[0] in acts && forall act | act in acts[1..] :: act in acts;
      if Closes(acts[0]) {
        ClosedAcceptsNone(Step(st, acts[0]), acts[1..]);
      } else {
        DisconnectedNeverResumes(Step(st, acts[0]), acts[1..]);
      }
    }
  }

  /** In particular there is no gap when every overflow does disconnect. */
  lemma AcceptedUpToClosing(st: Outgoing, acts: seq<Act>)
    requires st.open && IsRun(st, acts) && OverflowsDisconnect(acts)
    ensures RunEnd(st, acts).accepted == st.accepted + UpToClosing(acts)
  {
    DisconnectedNeverResumes(st, acts);
    AcceptedUpToClosingIff(st, acts);
  }

  /** What can be told at the overflow itself: nothing is accepted on any continuation if
      and only if the disconnect it causes succeeds. */
  lemma OverflowIsFinalIff(st: Outgoing, dropped: seq<byte>, lingerOk: bool)
    requires st.open
    ensures var after := Step(st, Send(dropped, false, lingerOk));
            (forall acts | IsRun(after, acts) :: RunEnd(after, acts).accepted == st.accepted) <==> lingerOk
  {
    var after := Step(st, Send(dropped, false, lingerOk));
    if lingerOk {
      forall acts | IsRun(after, acts) ensures RunEnd(after, acts).accepted == st.accepted {
        ClosedStaysClosed(after, acts);
      }
    } else {
      var acts := [Send([0], true, true)];
      RunOfOneMore(after, acts[0], []);
      assert acts == [acts[0]] + [];
      assert |RunEnd(after, acts).accepted| == |st.accepted| + 1;
    }
  }

  /** A failing disconnect does leave a gap: with `space` bytes free, a packet that does
      not fit is dropped and a shorter one that follows is accepted. */
  lemma FailedDisconnectLeavesGap(st: Outgoing, dropped: seq<byte>, later: seq<byte>, space: nat)
    requires st.open && |dropped| > space >= |later| > 0
    ensures var acts := [Send(dropped, |dropped| <= space, false), Send(later, |later| <= space, true)];
            && IsRun(st, acts) && Resumes(st, acts)
            && RunEnd(st, acts).accepted == st.accepted + later
            && RunEnd(st, acts).accepted != st.accepted + UpToClosing(acts)
  {
    var acts := [Send(dropped, |dropped| <= space, false), Send(later, |later| <= space, true)];
    var mid := Step(st, acts[0]);
    RunOfOneMore(mid, acts[1], []);
    RunOfOneMore(st, acts[0], [acts[1]]);
    assert [acts[1]] + [] == [acts[1]] && [acts[0]] + [acts[1]] == acts;
    assert acts[1..] == [acts[1]];
    assert Resumes(st, acts);
    AcceptedUpToClosingIff(st, acts);
  }
}
