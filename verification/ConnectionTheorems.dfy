/** The promises of the connection, stated over every run from a fresh connection. */
module ConnectionTheorems {
  import opened Common
  import opened KcpQueue
  import opened ConnectionSpec
  import opened ConnectionLaws

  // ---------------------------------------------------------------- every run, whatever happens in it

  /** No byte is lost, duplicated or reordered between KCP and the user, and none inside a streambuf. */
  lemma {:induction false} BytesArriveInOrder(id: Identity, now: int, events: seq<Event>)
    ensures var s := NewConn(id, now);
            var r := Run(s, events);
            && DeliveredBytes(r.history.delivered) + QueueBytes(r.kcp.queue) == AcceptedAlong(s, events)
            && forall b | 0 <= b < |r.bufs| ::
                 RemovedFrom(r.history.removed, b) + r.bufs[b].data == DeliveredTo(r.history.delivered, b)
  {
    EveryRun(id, now, events);
    assert [] + AcceptedAlong(NewConn(id, now), events) == AcceptedAlong(NewConn(id, now), events);
  }

  lemma {:induction false} EveryRun(id: Identity, now: int, events: seq<Event>)
    ensures var s := NewConn(id, now);
            RunKeeps(s, AcceptedAlong(s, events), Run(s, events)) && Stream(s) == []
  {
    FreshIsStable(id, now);
    RunIsStable(NewConn(id, now), events);
  }

  lemma {:induction false} RunLives(id: Identity, now: int, events: seq<Event>)
    ensures Lives(Run(NewConn(id, now), events)) && Run(NewConn(id, now), events).id == id
  {
    EveryRun(id, now, events);
  }

  /**
   * Every initiated use of a handler is completed, posted or pending, exactly once; the one exception
   * is the handler of a read that threw.
   */
  lemma {:induction false} HandlersRunOnce(id: Identity, now: int, events: seq<Event>, h: Handler)
    ensures var r := Run(NewConn(id, now), events);
            && Initiated(r.history.initiated, h)
               == Completed(r.history.completed, h) + Posted(r.posted, h) + Pending(r, h)
                  + One(r.history.dropped == Some(h))
            && (r.history.dropped.Some? <==> r.thrown)
            && Completed(r.history.completed, h) <= Initiated(r.history.initiated, h)
  {
    EveryRun(id, now, events);
    assert Missing(Run(NewConn(id, now), events), h) == 0;
  }

  /**
   * What a handler is told is what it finds: the reads into arrays that succeeded, in order, were told
   * exactly the sizes of what was put into those arrays; a count fits the array or is what the read asked
   * for; and whatever did not succeed, or was no read, was told 0.
   */
  lemma {:induction false} CountsAreRight(id: Identity, now: int, events: seq<Event>)
    ensures var r := Run(NewConn(id, now), events);
            && ToldByReads(r.history.completed) == FoundInArrays(r.history.delivered)
            && forall c <- r.history.completed :: CountRight(c)
  {
    EveryRun(id, now, events);
  }

  /** A pending read that could finish, and nobody is about to try it. */
  predicate Asleep(s: Conn) {
    && !s.thrown
    && s.readOp.Some? && ValidOp(s, s.readOp.value)
    && CheckTask !in s.posted
    && CanFinish(s, s.readOp.value)
  }

  /**
   * Nothing sleeps that could move: neither a pending write, nor KCP itself, nor a pending read unless it
   * was put back behind an empty message, which takes a peer that sends one.
   */
  lemma {:induction false} NoLostWakeups(id: Identity, now: int, events: seq<Event>)
    ensures var r := Run(NewConn(id, now), events);
            && (r.thrown || r.writeOp.None? || r.kcp.waitsnd > IDLE_SEND_PACKET_COUNT)
            && (forall t: nat, next: int :: !UpdateConn(r, t, next).kcp.touched)
            && (r.thrown || r.readOp.None? || ValidOp(r, r.readOp.value))
            && (Asleep(r) ==> r.history.emptied)
            && (NoEmptyMessages(events) ==> !Asleep(r))
  {
    EveryRun(id, now, events);
    if NoEmptyMessages(events) {
      StaysFull(id, now, events);
    }
  }

  predicate NoEmptyMessages(events: seq<Event>) {
    forall e <- events :: NoneEmpty(Incoming(e))
  }

  lemma {:induction false} StaysFull(id: Identity, now: int, events: seq<Event>)
    requires NoEmptyMessages(events)
    ensures var r := Run(NewConn(id, now), events); NeverEmptied(r.kcp.queue, r.history.emptied)
    decreases |events|
  {
    if events != [] {
      var k := |events| - 1;
      PrefixHasNoEmpty(events);
      StaysFull(id, now, events[..k]);
      RunLives(id, now, events[..k]);
      StepStaysFull(Run(NewConn(id, now), events[..k]), events[k]);
    }
  }

  lemma {:induction false} PrefixHasNoEmpty(events: seq<Event>)
    requires NoEmptyMessages(events) && events != []
    ensures NoEmptyMessages(events[..|events| - 1]) && NoneEmpty(Incoming(events[|events| - 1]))
  {
    assert forall e <- events[..|events| - 1] :: e in events;
    assert events[|events| - 1] in events;
  }

  lemma {:induction false} StepStaysFull(s: Conn, e: Event)
    requires Lives(s) && NeverEmptied(s.kcp.queue, s.history.emptied) && NoneEmpty(Incoming(e))
    ensures NeverEmptied(Step(s, e).kcp.queue, Step(s, e).history.emptied)
  {
    if !Inert(s, e) {
      StepIsStable(s, e);
    }
  }

  /**
   * The state only moves forward, and the disconnect frame leaves exactly once, with the close: never
   * before it, never again, and missing only where a read threw.
   */
  lemma {:induction false} LifeCycle(id: Identity, now: int, before: seq<Event>, after: seq<Event>)
    ensures var s := Run(NewConn(id, now), before);
            var r := Run(s, after);
            var full := if r.state == Closed then 1 else 0;
            && Rank(s.state) <= Rank(r.state)
            && s.history.disconnects <= r.history.disconnects <= full
            && (r.history.disconnects < full ==> r.thrown)
  {
    var s := Run(NewConn(id, now), before);
    EveryRun(id, now, before);
    RunIsStable(s, after);
  }

  /** Once closed with an error, nothing throws and nothing is pending, then or ever after. */
  lemma {:induction false} ClosedIsDrained(id: Identity, now: int, before: seq<Event>, after: seq<Event>)
    requires var s := Run(NewConn(id, now), before); s.state == Closed && s.history.reason != NoError
    ensures var r := Run(Run(NewConn(id, now), before), after);
            !r.thrown && r.state == Closed && r.readOp.None? && r.writeOp.None?
  {
    EveryRun(id, now, before);
    RunIsStable(Run(NewConn(id, now), before), after);
  }

  /** A client that has been started and is not closed is receiving, and its timer is running. */
  lemma {:induction false} ClientKeepsGoing(id: Identity, now: int, events: seq<Event>)
    requires !id.isServer
    ensures var r := Run(NewConn(id, now), events);
            r.thrown || match r.state
                        case Idle => r.io == NOT_STARTED
                        case Opened => r.io == STARTED
                        case Closed => !r.io.receiving && !r.io.socketOpen
  {
    EveryRun(id, now, events);
  }

  // ---------------------------------------------------------------- runs with room for what arrives

  /** Every streambuf made in the run could hold all that KCP accepts in it, and one more prepare. */
  predicate Ample(events: seq<Event>) {
    forall e <- events | e.AddBuffer? :: |AcceptedBytes(events)| + READ_CHUNK <= e.limit
  }

  /** A client is started before anything else happens to it; a server connection needs no start. */
  predicate Started(id: Identity, events: seq<Event>) {
    id.isServer || events == [] || events[0] == RunClient
  }

  /** With ample streambufs nothing ever throws, and every promise holds without exception. */
  lemma {:induction false} AmpleRunsKeepEverything(id: Identity, now: int, events: seq<Event>, h: Handler)
    requires Ample(events) && Started(id, events)
    ensures var r := Run(NewConn(id, now), events);
            && !r.thrown
            && DeliveredBytes(r.history.delivered) + QueueBytes(r.kcp.queue) == AcceptedBytes(events)
            && (forall b | 0 <= b < |r.bufs| ::
                  RemovedFrom(r.history.removed, b) + r.bufs[b].data == DeliveredTo(r.history.delivered, b))
            && Initiated(r.history.initiated, h)
               == Completed(r.history.completed, h) + Posted(r.posted, h) + Pending(r, h)
            && (r.writeOp.Some? ==> r.kcp.waitsnd > IDLE_SEND_PACKET_COUNT)
            && (Asleep(r) ==> r.history.emptied) && (NoEmptyMessages(events) ==> !Asleep(r))
            && r.history.disconnects == if r.state == Closed then 1 else 0
  {
    AmpleNeverThrows(id, now, events);
    AcceptedWhole(id, now, events);
    BytesArriveInOrder(id, now, events);
    HandlersRunOnce(id, now, events, h);
    NoLostWakeups(id, now, events);
    LifeCycle(id, now, events, []);
  }

  lemma {:induction false} AmpleNeverThrows(id: Identity, now: int, events: seq<Event>)
    requires Ample(events)
    ensures !Run(NewConn(id, now), events).thrown
  {
    RoomRemains(id, now, events, |AcceptedBytes(events)|);
  }

  lemma {:induction false} RoomRemains(id: Identity, now: int, events: seq<Event>, n: nat)
    requires |AcceptedBytes(events)| <= n
    requires forall e <- events | e.AddBuffer? :: n + READ_CHUNK <= e.limit
    ensures var r := Run(NewConn(id, now), events);
            && !r.thrown && Stable(r)
            && |Stream(r)| <= |AcceptedBytes(events)|
            && forall b | 0 <= b < |r.bufs| :: n + READ_CHUNK <= r.bufs[b].limit
    decreases |events|
  {
    if events == [] {
      FreshIsStable(id, now);
    } else {
      var k := |events| - 1;
      assert events[k] in events;
      assert forall e <- events[..k] :: e in events;
      RoomRemains(id, now, events[..k], n);
      RoomAfterStep(Run(NewConn(id, now), events[..k]), events[k], n);
    }
  }

  lemma {:induction false} RoomAfterStep(s: Conn, e: Event, n: nat)
    requires Stable(s) && !s.thrown
    requires |Stream(s)| + |AcceptedBy(e)| <= n && (e.AddBuffer? ==> n + READ_CHUNK <= e.limit)
    requires forall b | 0 <= b < |s.bufs| :: n + READ_CHUNK <= s.bufs[b].limit
    ensures var r := Step(s, e);
            && !r.thrown && Stable(r)
            && |Stream(r)| <= |Stream(s)| + |AcceptedBy(e)|
            && forall b | 0 <= b < |r.bufs| :: n + READ_CHUNK <= r.bufs[b].limit
  {
    if !Inert(s, e) {
      StepIsStable(s, e);
    }
  }

  /** A started connection that has not thrown took part in every step. */
  lemma {:induction false} AcceptedWhole(id: Identity, now: int, events: seq<Event>)
    requires Started(id, events) && !Run(NewConn(id, now), events).thrown
    ensures AcceptedAlong(NewConn(id, now), events) == AcceptedBytes(events)
    ensures events == [] || id.isServer || Run(NewConn(id, now), events).state != Idle
    decreases |events|
  {
    if events != [] {
      var k := |events| - 1;
      AcceptedWhole(id, now, events[..k]);
      EveryRun(id, now, events[..k]);
      var m := Run(NewConn(id, now), events[..k]);
      if !Inert(m, events[k]) {
        StepIsStable(m, events[k]);
      }
    }
  }

  // ---------------------------------------------------------------- the client's timeout

  /** When the last datagram with a full header came, or the connection was made, read off the events. */
  function LastSign(now: int, events: seq<Event>): int {
    if events == [] then now
    else
      var last := events[|events| - 1];
      if last.Receive? && |last.data| >= KCP_HEADER_SIZE then last.t else LastSign(now, events[..|events| - 1])
  }

  /**
   * The timer of an open client closes it exactly if the last sign of life is more than 30 s old, with
   * timed_out; otherwise the client stays open and the timer runs on.
   */
  lemma {:induction false} ClientTimesOut(id: Identity, now: int, events: seq<Event>, at: int, next: int)
    requires !id.isServer && Started(id, events)
    requires var s := Run(NewConn(id, now), events); s.state == Opened && !s.thrown
    ensures var r := Run(NewConn(id, now), events + [Timer(at, next)]);
            && !r.thrown
            && if at - LastSign(now, events) > TIMEOUT_DURATION
               then r.state == Closed && r.history.reason == TimedOut && r.readOp.None? && r.writeOp.None?
               else r.state == Opened && r.io == STARTED
  {
    AppendOne(events, Timer(at, next));
    RunLives(id, now, events);
    StampIsLastSign(id, now, events);
    TimerOutcome(Run(NewConn(id, now), events), at, next);
  }

  lemma {:induction false} TimerOutcome(s: Conn, at: int, next: int)
    requires Stable(s) && !s.thrown && !s.id.isServer && s.state == Opened
    ensures var r := Step(s, Timer(at, next));
            && !r.thrown
            && if at - s.nowTick > TIMEOUT_DURATION
               then r.state == Closed && r.history.reason == TimedOut && r.readOp.None? && r.writeOp.None?
               else r.state == Opened && r.io == STARTED
  {
    var u := UpdateConn(s.(io := s.io.(ticking := false)), at, next);
    if at - s.nowTick > TIMEOUT_DURATION {
      CloseKeeps(u, TimedOut);
      CheckReadKeeps(Closing(u, TimedOut), TimedOut);
    }
  }

  lemma {:induction false} StampIsLastSign(id: Identity, now: int, events: seq<Event>)
    requires Started(id, events) && !Run(NewConn(id, now), events).thrown
    ensures Run(NewConn(id, now), events).nowTick == LastSign(now, events)
    decreases |events|
  {
    if events != [] {
      var k := |events| - 1;
      StampIsLastSign(id, now, events[..k]);
      EveryRun(id, now, events[..k]);
      AcceptedWhole(id, now, events[..k]);
      StepStamps(Run(NewConn(id, now), events[..k]), events[k]);
    }
  }

  lemma {:induction false} StepStamps(s: Conn, e: Event)
    requires Stable(s) && !s.thrown
    ensures Step(s, e).nowTick
            == if !Inert(s, e) && e.Receive? && |e.data| >= KCP_HEADER_SIZE then e.t else s.nowTick
  {
    if !Inert(s, e) {
      StepIsStable(s, e);
      if e.Receive? {
        var u := if s.id.isServer then s else s.(io := s.io.(receiving := false));
        QuietIsStable(s, u, RunClient);
        SignOfLife(u, e.data, e.t, e.input);
      }
    }
  }

  // ---------------------------------------------------------------- the disconnect frame

  /** The frame close sends: the opcode and 32 zero bytes. */
  function DisconnectFrame(): seq<byte> {
    [OPCODE_DISCONNECT] + seq(32, _ => 0)
  }

  /** It is long enough to count, so whoever receives it ends closed, having answered at most once. */
  lemma {:induction false} DisconnectFrameCloses(s: Conn, t: int, input: InputResult)
    requires Settled(s) && !s.thrown
    ensures var r := OnReceive(s, DisconnectFrame(), t, input);
            && !r.thrown && Settled(r) && r.state == Closed && r.history.disconnects == 1
            && (s.state != Closed ==> r.history.reason == Eof && r.readOp.None? && r.writeOp.None?)
  {
    var u := s.(state := if s.state == Idle then Opened else s.state, nowTick := t);
    OnReceiveIsStable(s, DisconnectFrame(), t, input);
    CloseKeeps(u, Eof);
    CheckReadKeeps(Closing(u, Eof), Eof);
  }

  // ---------------------------------------------------------------- exactly when a read finishes

  /** The streambuf has no room for one more prepare after everything that fits. */
  predicate Overflows(s: Conn, op: ReadOp)
    requires ValidOp(s, op)
  {
    op.StreamOp? &&
    |s.bufs[op.buf].data| + |Fitting(s.kcp.queue)| + READ_CHUNK > s.bufs[op.buf].limit
  }

  /**
   * async_read finishes exactly when the streambuf and what the queue holds before the first message that
   * is empty or oversized come to what it needs, and then the streambuf holds it; an empty message is lost
   * from the queue, an oversized one stays; it throws exactly when the streambuf has no room for one more prepare.
   */
  lemma {:induction false} AsyncReadOutcome(s: Conn, h: Handler, buf: nat, need: nat)
    requires buf < |s.bufs|
    ensures var b := s.bufs[buf];
            var a := TryRead(s, StreamOp(h, buf, need));
            && (a.Threw? <==> |b.data| + |Fitting(s.kcp.queue)| + READ_CHUNK > b.limit)
            && (!a.Threw? ==> (a.Done? <==> CanFinish(s, StreamOp(h, buf, need))))
            && (!a.Threw? ==>
                  && a.next.bufs[buf].data == b.data + Fitting(s.kcp.queue)
                  && a.next.kcp.queue == Recv(Stopped(s.kcp.queue), READ_CHUNK).rest)
            && (a.Done? ==> a.n == need && |a.next.bufs[buf].data| >= need)
  {
    DrainTakesFitting(s.kcp.queue, s.bufs[buf].data, s.bufs[buf].limit);
  }

  /**
   * Which closes throw, and which leave nothing pending. The error codes the connection passes itself
   * are never zero; with a zero code only what can finish at once is completed, and the rest stays.
   */
  lemma {:induction false} CloseDrainsExactly(s: Conn, ec: ErrorCode)
    requires Settled(s) && !s.thrown && s.state == Opened
    ensures var r := CloseConn(s, ec);
            && (r.thrown <==> ec == NoError && s.readOp.Some? && Overflows(s, s.readOp.value))
            && (!r.thrown ==>
                  (r.readOp.None? && r.writeOp.None?
                   <==> ec != NoError
                        || (s.writeOp.None? && (s.readOp.Some? ==> CanFinish(s, s.readOp.value)))))
  {
    var m := Closing(s, ec);
    CheckReadKeeps(m, ec);
    if ec == NoError {
      assert CheckRead(m, ec) == CheckWrite(SettleRead(m, ec), ec);
      SettleReadKeeps(m, NoError);
      SettleClosed(m);
      CheckWriteKeeps(SettleRead(m, NoError), NoError);
    }
  }

  lemma {:induction false} SettleClosed(m: Conn)
    requires m.state == Closed && !m.thrown && ValidOps(m)
    ensures var r := SettleRead(m, NoError);
            && (r.thrown <==> m.readOp.Some? && Overflows(m, m.readOp.value))
            && r.writeOp == m.writeOp
            && r.kcp.waitsnd == m.kcp.waitsnd
            && (!r.thrown ==> (r.readOp.None? <==> (m.readOp.Some? ==> CanFinish(m, m.readOp.value))))
  {
    if m.readOp.Some? {
      var op := m.readOp.value;
      var a := TryRead(m.(readOp := None), op);
      ThrowsIfOverflows(m.(readOp := None), op);
      SettledRead(m);
      if !a.Threw? {
        TryReadAttempts(m.(readOp := None), op);
      }
      if a.Done? {
        RunScriptKeeps(Log(a.next, ReadDone(op, NoError, a.n)), op.h.script);
      }
    }
  }

  /** What settling a read comes to, by the outcome of the attempt. */
  lemma {:induction false} SettledRead(s: Conn)
    requires !s.thrown && ValidOps(s) && s.readOp.Some?
    ensures var op := s.readOp.value;
            var r := SettleRead(s, NoError);
            match TryRead(s.(readOp := None), op)
            case Done(t, n) => r == RunScript(Log(t, ReadDone(op, NoError, n)), op.h.script) && !t.thrown
            case NotYet(t) => r == t.(readOp := s.readOp) && !t.thrown
            case Threw(t) => r == t && t.thrown
  {
    var op := s.readOp.value;
    var t := s.(readOp := None);
    match TryRead(t, op)
    case Done(u, n) =>
      TryReadMoves(t, op);
      assert CompleteRead(t, op, NoError) == (true, RunScript(Log(u, ReadDone(op, NoError, n)), op.h.script));
    case NotYet(u) =>
      TryReadMoves(t, op);
      assert CompleteRead(t, op, NoError) == (false, u);
    case Threw(u) => assert CompleteRead(t, op, NoError) == (false, u);
  }

  lemma {:induction false} ThrowsIfOverflows(s: Conn, op: ReadOp)
    requires ValidOp(s, op)
    ensures TryRead(s, op).Threw? <==> Overflows(s, op)
  {
    if op.StreamOp? {
      AsyncReadOutcome(s, op.h, op.buf, op.need);
    }
  }

  // ---------------------------------------------------------------- exactly when a read falls asleep

  /**
   * A check puts the pending read back although it could finish exactly if an empty message hid enough
   * for it. A check that finishes the read leaves none asleep, whatever its handler starts.
   */
  lemma {:induction false} CheckFallsAsleep(s: Conn)
    requires !s.thrown && ValidOps(s) && s.readOp.Some? && CheckTask !in s.posted
    requires !Overflows(s, s.readOp.value)
    ensures Asleep(SettleRead(s, NoError)) <==> HiddenByEmpty(s, s.readOp.value)
    ensures WriteBlocked(s) ==> (Asleep(CheckRead(s, NoError)) <==> HiddenByEmpty(s, s.readOp.value))
  {
    var op := s.readOp.value;
    var t := s.(readOp := None);
    assert HiddenByEmpty(t, op) == HiddenByEmpty(s, op) && Overflows(t, op) == Overflows(s, op);
    ThrowsIfOverflows(t, op);
    TryReadMoves(t, op);
    TryReadExhausts(t, op);
    SettledRead(s);
    if TryRead(t, op).Done? {
      FinishedIsAwake(s);
    }
  }

  lemma {:induction false} FinishedIsAwake(s: Conn)
    requires !s.thrown && ValidOps(s) && s.readOp.Some?
    requires TryRead(s.(readOp := None), s.readOp.value).Done?
    ensures !Asleep(SettleRead(s, NoError)) && !Asleep(CheckRead(s, NoError))
  {
    var op := s.readOp.value;
    var a := TryRead(s.(readOp := None), op);
    TryReadMoves(s.(readOp := None), op);
    SettledRead(s);
    RunScriptKeeps(Log(a.next, ReadDone(op, NoError, a.n)), op.h.script);
    CheckWriteKeeps(SettleRead(s, NoError), NoError);
  }

  /** A datagram with an empty message and a byte behind it: the byte arrives and the read sleeps. */
  lemma {:induction false} EmptyMessageHidesData(id: Identity, h: Handler, data: seq<byte>, x: byte)
    requires id.isServer && |data| >= KCP_HEADER_SIZE && data[0] == OPCODE_DATA
    ensures var input := InputResult([Segment(0, []), Segment(0, [x])], 0);
            var r := Run(NewConn(id, 0), [UserCall(ReadSome(1, h)), RunPosted(0), Receive(data, 0, input)]);
            Asleep(r) && r.kcp.queue == [Segment(0, [x])]
  {
    var s0 := NewConn(id, 0);
    var input := InputResult([Segment(0, []), Segment(0, [x])], 0);
    var e0, e1, e2 := UserCall(ReadSome(1, h)), RunPosted(0), Receive(data, 0, input);
    var op := SomeOp(h, 1);
    var s1 := s0.(readOp := Some(op), posted := [CheckTask], history := s0.history.(initiated := [h]));
    assert Step(s0, e0) == s1;
    var s2 := s1.(posted := []);
    NothingQueued(s2, op);
    assert s1.posted[..0] + s1.posted[1..] == [];
    assert Step(s1, e1) == s2;
    var u := s2.(state := Opened, kcp := Kcp(input.segments, 0, true), nextTick := 0);
    assert InputKcp(s2.kcp, input) == u.kcp by {
      assert [] + input.segments == input.segments;
    }
    assert s2.(state := Opened, nowTick := 0).(kcp := InputKcp(s2.kcp, input), nextTick := 0) == u;
    assert Step(s2, e2) == CheckRead(u, NoError);
    EmptyFirst(u, op, x);
    CheckFallsAsleep(u);
    ThreeSteps(s0, e0, e1, e2);
  }

  lemma {:induction false} NothingQueued(s: Conn, op: ReadOp)
    requires !s.thrown && s.readOp == Some(op) && op.SomeOp? && s.writeOp.None? && s.kcp.queue == []
    requires !s.history.emptied
    ensures CheckRead(s, NoError) == s
  {
    var t := s.(readOp := None);
    assert TryRead(t, op) == NotYet(t);
    assert SettleRead(s, NoError) == s;
  }

  lemma {:induction false} EmptyFirst(u: Conn, op: ReadOp, x: byte)
    requires op.SomeOp? && op.capacity == 1 && u.readOp == Some(op) && u.writeOp.None? && !u.thrown
    requires u.kcp.queue == [Segment(0, []), Segment(0, [x])]
    ensures HiddenByEmpty(u, op) && CheckRead(u, NoError).kcp.queue == [Segment(0, [x])]
  {
    var q := u.kcp.queue;
    OneSegment(q, 1);
    assert q[1..] == [Segment(0, [x])];
    OneSegment(q[1..], 1);
    assert SettleRead(u, NoError).kcp.queue == q[1..] && SettleRead(u, NoError).writeOp.None?;
  }

  lemma {:induction false} OneSegment(q: seq<Segment>, len: nat)
    requires q != [] && q[0].frg == 0 && |q[0].data| <= len
    ensures Recv(q, len) == Receipt(|q[0].data|, q[0].data, q[1..])
  {
    var w := Window(q);
    assert w != [] && w[0] == q[0];
    assert q[..1] == [q[0]] && [q[0]][1..] == [];
    assert QueueBytes([q[0]]) == q[0].data + QueueBytes([]) == q[0].data;
  }

  /** A client whose write waits for room, closed with a zero code: the write is left pending. */
  lemma {:induction false} CloseWithZeroStrandsAWrite(id: Identity, h: Handler)
    requires !id.isServer
    ensures var r := Run(NewConn(id, 0), [RunClient, UserCall(Write(Queued(129), h)), UserCall(Close(NoError))]);
            r.state == Closed && r.writeOp == Some(h)
  {
    var s0 := NewConn(id, 0);
    var e0, e1, e2 := RunClient, UserCall(Write(Queued(129), h)), UserCall(Close(NoError));
    var s1 := s0.(state := Opened, io := STARTED);
    assert Step(s0, e0) == s1;
    var s2 := s1.(kcp := Kcp([], 129, true), writeOp := Some(h), history := s1.history.(initiated := [h]));
    assert Begin(s1, h).history.initiated == [h];
    assert Send(Begin(s1, h), Queued(129), h) == s2;
    assert Step(s1, e1) == s2;
    WaitingWriteStays(s2, h);
    ThreeSteps(s0, e0, e1, e2);
  }

  lemma {:induction false} WaitingWriteStays(s: Conn, h: Handler)
    requires !s.thrown && s.state == Opened && s.readOp.None? && s.writeOp == Some(h)
    requires s.kcp.waitsnd > IDLE_SEND_PACKET_COUNT
    ensures var r := Step(s, UserCall(Close(NoError))); r.state == Closed && r.writeOp == Some(h)
  {
    var m := Closing(s, NoError);
    assert SettleRead(m, NoError) == m;
    assert CheckWrite(m, NoError) == m;
    assert CheckRead(m, NoError) == m;
    assert CloseConn(s, NoError) == Disconnected(m);
  }

  lemma {:induction false} ThreeSteps(s: Conn, e0: Event, e1: Event, e2: Event)
    ensures Run(s, [e0, e1, e2]) == Step(Step(Step(s, e0), e1), e2)
  {
    AppendOne([], e0);
    AppendOne([e0], e1);
    AppendOne([e0, e1], e2);
    assert [] + [e0] == [e0] && [e0] + [e1] == [e0, e1] && [e0, e1] + [e2] == [e0, e1, e2];
    assert Run(s, [e0]) == Step(Run(s, []), e0);
    assert Run(s, [e0, e1]) == Step(Run(s, [e0]), e1);
  }

  // ---------------------------------------------------------------- what becomes of an initiation

  /** The answer the k-th posted task gives when it runs. */
  predicate Answers(s: Conn, k: nat, h: Handler, ec: ErrorCode) {
    && k < |s.posted|
    && var r := RunTask(s, k);
       |s.history.completed| < |r.history.completed|
       && r.history.completed[|s.history.completed|] == Completion(h, ec, 0, OfPost)
  }

  lemma {:induction false} PostedAnswers(s: Conn, k: nat, h: Handler, ec: ErrorCode)
    requires !s.thrown && ValidOps(s) && k < |s.posted| && s.posted[k] == HandlerTask(h, ec)
    ensures Answers(s, k, h, ec)
  {
    var t := s.(posted := s.posted[..k] + s.posted[k + 1..]);
    RunScriptKeeps(Log(t, Completion(h, ec, 0, OfPost)), h.script);
  }

  /**
   * A read on a closed connection, or beside another read, is refused and leaves the slot alone; any
   * other becomes the pending read, and one posted check looks at it.
   */
  lemma {:induction false} ReadInitiation(s: Conn, op: ReadOp)
    requires !s.thrown && ValidOps(s) && ValidOp(s, op)
    ensures var r := InitiateRead(s, op);
            var k := |s.posted|;
            if s.state == Closed then r.readOp == s.readOp && Answers(r, k, op.h, OperationAborted)
            else if s.readOp.Some? then r.readOp == s.readOp && Answers(r, k, op.h, InProgress)
            else r.readOp == Some(op) && k < |r.posted|
                 && RunTask(r, k) == CheckRead(r.(posted := s.posted), NoError)
  {
    var r := InitiateRead(s, op);
    var k := |s.posted|;
    assert r.posted[..k] + r.posted[k + 1..] == s.posted;
    if s.state == Closed {
      PostedAnswers(r, k, op.h, OperationAborted);
    } else if s.readOp.Some? {
      PostedAnswers(r, k, op.h, InProgress);
    }
  }

  /** A write is refused, rejected for its size, answered at once, or left waiting for KCP to drain. */
  lemma {:induction false} WriteInitiation(s: Conn, result: SendResult, h: Handler)
    requires !s.thrown && ValidOps(s)
    ensures var r := InitiateWrite(s, result, h);
            var k := |s.posted|;
            if s.state == Closed || s.writeOp.Some? then
              && r.kcp == s.kcp && r.nextTick == s.nextTick && r.writeOp == s.writeOp
              && Answers(r, k, h, if s.state == Closed then OperationAborted else InProgress)
            else
              && r.nextTick == 0 && r.kcp.touched && r.kcp.queue == s.kcp.queue
              && if result.Rejected? then
                   r.kcp.waitsnd == s.kcp.waitsnd && r.writeOp == None && Answers(r, k, h, MessageSize)
                 else
                   && r.kcp.waitsnd == s.kcp.waitsnd + result.packets
                   && if r.kcp.waitsnd <= IDLE_SEND_PACKET_COUNT then r.writeOp == None && Answers(r, k, h, NoError)
                      else r.writeOp == Some(h) && r.posted == s.posted
  {
    var r := InitiateWrite(s, result, h);
    var k := |s.posted|;
    if s.state == Closed {
      PostedAnswers(r, k, h, OperationAborted);
    } else if s.writeOp.Some? {
      PostedAnswers(r, k, h, InProgress);
    } else if result.Rejected? {
      PostedAnswers(r, k, h, MessageSize);
    } else if s.kcp.waitsnd + result.packets <= IDLE_SEND_PACKET_COUNT {
      PostedAnswers(r, k, h, NoError);
    }
  }

  /** Exactly the datagrams with a full header count: they open an idle connection and renew its stamp. */
  lemma {:induction false} SignOfLife(s: Conn, data: seq<byte>, t: int, input: InputResult)
    requires Settled(s) && !s.thrown
    ensures var r := OnReceive(s, data, t, input);
            && (r.state == Idle <==> s.state == Idle && |data| < KCP_HEADER_SIZE)
            && r.nowTick == (if |data| < KCP_HEADER_SIZE then s.nowTick else t)
            && (|data| < KCP_HEADER_SIZE ==> r == s)
  {
    OnReceiveIsStable(s, data, t, input);
    if |data| >= KCP_HEADER_SIZE {
      var u := s.(state := if s.state == Idle then Opened else s.state, nowTick := t);
      if data[0] == OPCODE_DATA {
        CheckReadKeeps(u.(kcp := InputKcp(u.kcp, input), nextTick := 0), NoError);
      } else if data[0] == OPCODE_DISCONNECT {
        CloseKeeps(u, Eof);
      }
    }
  }
}
