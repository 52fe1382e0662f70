/**
 * What each operation of a connection comes to, handlers included: who is told what and in which order,
 * what a handler's calls do, and when KCP is driven.
 */
module ConnectionOutcomes {
  import opened Common
  import opened KcpQueue
  import opened ConnectionSpec
  import opened ConnectionLaws
  import opened ConnectionTheorems

  // ---------------------------------------------------------------- what an operation is told

  /** Over every run: a read or write that had its slot succeeds, or is told why the connection closed. */
  lemma {:induction false} OperationsAreToldWhy(id: Identity, now: int, events: seq<Event>)
    ensures var r := Run(NewConn(id, now), events);
            forall c <- r.history.completed | !c.cause.OfPost? ::
              c.ec == NoError || (r.state == Closed && c.ec == r.history.reason)
  {
    EveryRun(id, now, events);
  }

  /**
   * A check without an error completes the waiting write with success when at most 128 packets wait,
   * and leaves everything alone when more do.
   */
  lemma {:induction false} WaitingWrite(s: Conn)
    requires !s.thrown && ValidOps(s) && s.writeOp.Some?
    ensures var r := CheckWrite(s, NoError);
            var n := |s.history.completed|;
            if s.kcp.waitsnd <= IDLE_SEND_PACKET_COUNT then
              && s.history.completed <= r.history.completed && n < |r.history.completed|
              && r.history.completed[n] == Completion(s.writeOp.value, NoError, 0, OfWrite)
            else r == s
  {
    CheckWriteKeeps(s, NoError);
    if s.kcp.waitsnd <= IDLE_SEND_PACKET_COUNT {
      WriteCompletes(s, NoError);
    }
  }

  lemma {:induction false} WriteCompletes(s: Conn, ec: ErrorCode)
    requires !s.thrown && ValidOps(s) && s.writeOp.Some?
    requires ec != NoError || s.kcp.waitsnd <= IDLE_SEND_PACKET_COUNT
    ensures var r := CheckWrite(s, ec);
            var n := |s.history.completed|;
            && s.history.completed <= r.history.completed && n < |r.history.completed|
            && r.history.completed[n] == Completion(s.writeOp.value, ec, 0, OfWrite)
  {
    var done := Completion(s.writeOp.value, ec, 0, OfWrite);
    var logged := Log(s.(writeOp := None), done);
    RunScriptKeeps(logged, done.h.script);
    assert CheckWrite(s, ec) == RunScript(logged, done.h.script);
    assert logged.history.completed[|s.history.completed|] == done;
  }

  /**
   * A data datagram takes the packets it acknowledges off those that wait. If at most 128 are left, the
   * write that waits for that is told of success, unless the handler of a read that finishes first has
   * seen to it otherwise.
   */
  lemma {:induction false} AcknowledgementsWakeTheWrite(s: Conn, data: seq<byte>, t: int, input: InputResult)
    requires Settled(s) && !s.thrown && s.writeOp.Some?
    requires |data| >= KCP_HEADER_SIZE && data[0] == OPCODE_DATA
    ensures var u := Arrived(s, t, input);
            var m := SettleRead(u, NoError);
            var r := OnReceive(s, data, t, input);
            && u.kcp.waitsnd == (if input.acked >= s.kcp.waitsnd then 0 else s.kcp.waitsnd - input.acked)
            && (u.readOp.None? ==> m == u)
            && (!m.thrown && m.writeOp == s.writeOp && m.kcp.waitsnd <= IDLE_SEND_PACKET_COUNT ==>
                  var n := |m.history.completed|;
                  && n < |r.history.completed|
                  && r.history.completed[n] == Completion(s.writeOp.value, NoError, 0, OfWrite))
            && (!m.thrown && m.writeOp == s.writeOp && m.kcp.waitsnd > IDLE_SEND_PACKET_COUNT ==> r == m)
  {
    var u := Arrived(s, t, input);
    var m := SettleRead(u, NoError);
    ArrivedIsSound(s, data, t, input);
    SettleReadKeeps(u, NoError);
    if !m.thrown && m.writeOp == s.writeOp {
      WaitingWrite(m);
    }
  }

  /** The connection when a data datagram has gone into KCP and nothing has been checked yet. */
  function Arrived(s: Conn, t: int, input: InputResult): Conn {
    s.(state := if s.state == Idle then Opened else s.state, nowTick := t,
       kcp := InputKcp(s.kcp, input), nextTick := 0)
  }

  lemma {:induction false} ArrivedIsSound(s: Conn, data: seq<byte>, t: int, input: InputResult)
    requires Settled(s) && !s.thrown && |data| >= KCP_HEADER_SIZE && data[0] == OPCODE_DATA
    ensures Sound(Arrived(s, t, input))
    ensures OnReceive(s, data, t, input) == CheckRead(Arrived(s, t, input), NoError)
  {
    var u := s.(state := if s.state == Idle then Opened else s.state, nowTick := t);
    QuietIsStable(s, u, Receive([], t, InputResult([], 0)));
    InputIsSound(u, Arrived(s, t, input), Receive(data, t, input));
  }

  /** Frames other than data and disconnect are a sign of life and nothing more. */
  lemma {:induction false} OtherFrames(s: Conn, data: seq<byte>, t: int, input: InputResult)
    requires |data| >= KCP_HEADER_SIZE && data[0] != OPCODE_DATA && data[0] != OPCODE_DISCONNECT
    ensures OnReceive(s, data, t, input)
         == s.(state := if s.state == Idle then Opened else s.state, nowTick := t)
  {
  }

  // ---------------------------------------------------------------- what a close tells

  /** Each pending operation of c has been completed in r with the error. */
  predicate PendingGets(c: Conn, r: Conn, ec: ErrorCode)
    requires |c.history.completed| <= |r.history.completed|
  {
    && (c.readOp.Some? ==> ReadDone(c.readOp.value, ec, 0) in r.history.completed[|c.history.completed|..])
    && (c.writeOp.Some? ==>
          Completion(c.writeOp.value, ec, 0, OfWrite) in r.history.completed[|c.history.completed|..])
  }

  /** The first to be told is the read, if one is pending, and else the write. */
  predicate ReadGoesFirst(c: Conn, r: Conn, ec: ErrorCode)
    requires |c.history.completed| <= |r.history.completed|
  {
    var n := |c.history.completed|;
    && (c.readOp.Some? ==> n < |r.history.completed| && r.history.completed[n] == ReadDone(c.readOp.value, ec, 0))
    && (c.readOp.None? && c.writeOp.Some? ==>
          n < |r.history.completed| && r.history.completed[n] == Completion(c.writeOp.value, ec, 0, OfWrite))
  }

  /** Whatever closes an open connection with an error: pending operations learn it, the read first. */
  lemma {:induction false} ClosedGet(c: Conn, ec: ErrorCode)
    requires Settled(c) && !c.thrown && c.state == Opened && ec != NoError
    ensures var r := CloseConn(c, ec);
            && c.history.completed <= r.history.completed
            && PendingGets(c, r, ec) && ReadGoesFirst(c, r, ec)
            && !r.thrown && r.state == Closed && r.history.reason == ec
            && r.readOp.None? && r.writeOp.None?
            && r.history.disconnects == 1
            && r.kcp == c.kcp && r.nextTick == c.nextTick
  {
    var m := Closing(c, ec);
    var s := SettleRead(m, ec);
    CloseKeeps(c, ec);
    CheckReadKeeps(m, ec);
    ReadGets(m, ec);
    WriteGets(s, ec);
  }

  lemma {:induction false} ReadGets(m: Conn, ec: ErrorCode)
    requires !m.thrown && ValidOps(m) && m.state == Closed && m.history.reason == ec && ec != NoError
    ensures var s := SettleRead(m, ec);
            && !s.thrown && ValidOps(s) && s.state == Closed && s.history.reason == ec && s.writeOp == m.writeOp
            && m.history.completed <= s.history.completed
            && s.kcp == m.kcp && s.nextTick == m.nextTick
            && (m.readOp.None? ==> s == m)
            && (m.readOp.Some? ==>
                  |m.history.completed| < |s.history.completed|
                  && s.history.completed[|m.history.completed|] == ReadDone(m.readOp.value, ec, 0))
  {
    SettleReadKeeps(m, ec);
    if m.readOp.Some? {
      var done := ReadDone(m.readOp.value, ec, 0);
      var logged := Log(m.(readOp := None), done);
      RunScriptKeeps(logged, done.h.script);
      assert CompleteRead(m.(readOp := None), m.readOp.value, ec) == (true, RunScript(logged, done.h.script));
      assert logged.history.completed[|m.history.completed|] == done;
    }
  }

  lemma {:induction false} WriteGets(s: Conn, ec: ErrorCode)
    requires !s.thrown && ValidOps(s) && s.state == Closed && s.history.reason == ec && ec != NoError
    ensures var r := CheckWrite(s, ec);
            && s.history.completed <= r.history.completed
            && r.kcp == s.kcp && r.nextTick == s.nextTick
            && (s.writeOp.Some? ==>
                  |s.history.completed| < |r.history.completed|
                  && r.history.completed[|s.history.completed|] == Completion(s.writeOp.value, ec, 0, OfWrite))
  {
    if s.writeOp.Some? {
      WriteCompletes(s, ec);
      var done := Completion(s.writeOp.value, ec, 0, OfWrite);
      RunScriptKeeps(Log(s.(writeOp := None), done), done.h.script);
    }
  }

  /** The error with which a step closes an open connection, if it does so of itself. */
  function ClosingError(s: Conn, e: Event): Option<ErrorCode> {
    match e
    case UserCall(Close(ec)) => Some(ec)
    case ReceiveFailed(ec) => if s.id.isServer then None else Some(ec)
    case Receive(data, _, _) =>
      if |data| >= KCP_HEADER_SIZE && data[0] == OPCODE_DISCONNECT then Some(Eof) else None
    case Timer(now, _) => if !s.id.isServer && now - s.nowTick > TIMEOUT_DURATION then Some(TimedOut) else None
    case _ => None
  }

  /** The user's code, the socket's error, eof for a disconnect, or timed_out: that is what all are told. */
  lemma {:induction false} StepCloses(s: Conn, e: Event)
    requires Stable(s) && !s.thrown && s.state == Opened
    requires ClosingError(s, e).Some? && ClosingError(s, e).value != NoError
    ensures var r := Step(s, e);
            var ec := ClosingError(s, e).value;
            && s.history.completed <= r.history.completed
            && PendingGets(s, r, ec) && ReadGoesFirst(s, r, ec)
            && !r.thrown && r.state == Closed && r.history.reason == ec
            && r.readOp.None? && r.writeOp.None?
            && r.history.disconnects == 1
            && (s.id.isServer || (!r.io.receiving && !r.io.ticking && !r.io.socketOpen))
  {
    var ec := ClosingError(s, e).value;
    var u := BeforeClosing(s, e);
    StepClosesBy(s, e);
    ClosedGet(u, ec);
    CloseKeeps(u, ec);
    assert PendingGets(s, CloseConn(u, ec), ec) && ReadGoesFirst(s, CloseConn(u, ec), ec);
  }

  lemma {:induction false} StepClosesBy(s: Conn, e: Event)
    requires Stable(s) && !s.thrown && s.state == Opened && ClosingError(s, e).Some?
    requires ClosingError(s, e).value != NoError
    ensures var u := BeforeClosing(s, e);
            var ec := ClosingError(s, e).value;
            && Settled(u) && !u.thrown
            && u == s.(io := u.io, nowTick := u.nowTick, nextTick := u.nextTick,
                       kcp := s.kcp.(touched := u.kcp.touched))
            && Step(s, e) == if e.Receive? && !s.id.isServer then Ceased(CloseConn(u, ec)) else CloseConn(u, ec)
  {
    var u := BeforeClosing(s, e);
    QuietIsStable(s, u, if e.Receive? then Receive([], e.t, InputResult([], 0)) else RunClient);
    CloseKeeps(u, ClosingError(s, e).value);
  }

  /** A closed client begins no further receive. */
  function Ceased(s: Conn): Conn {
    s.(io := s.io.(receiving := false))
  }

  function BeforeClosing(s: Conn, e: Event): Conn {
    match e
    case ReceiveFailed(_) => s.(io := s.io.(receiving := false))
    case Receive(_, t, _) =>
      if s.id.isServer then s.(nowTick := t) else s.(io := s.io.(receiving := false), nowTick := t)
    case Timer(now, next) => UpdateConn(s.(io := s.io.(ticking := false)), now, next)
    case _ => s
  }

  // ---------------------------------------------------------------- what a handler's calls do

  /** The handlers of the reads and writes a script starts, given how many streambufs there are. */
  function Starts(script: seq<Action>, bufs: nat): seq<Handler> {
    if script == [] then [] else StartedBy(script[0], bufs) + Starts(script[1..], bufs)
  }

  function StartedBy(a: Action, bufs: nat): seq<Handler> {
    match a
    case ReadSome(_, h) => [h]
    case Read(buf, _, h) => if buf < bufs then [h] else []
    case Write(_, h) => [h]
    case _ => []
  }

  predicate NeverCloses(script: seq<Action>) {
    forall a <- script :: !a.Close?
  }

  /** Every call of a handler is made, each once and in order, whatever becomes of it. */
  lemma {:induction false} ScriptActs(s: Conn, script: seq<Action>)
    requires !s.thrown && ValidOps(s) && (s.state != Opened || NeverCloses(script))
    ensures var r := RunScript(s, script);
            && !r.thrown
            && r.history.initiated == s.history.initiated + Starts(script, |s.bufs|)
    decreases |script|
  {
    if script == [] {
      assert s.history.initiated + [] == s.history.initiated;
    } else {
      var m := Perform(s, script[0]);
      ActionActs(s, script[0]);
      assert forall a <- script[1..] :: a in script;
      ScriptActs(m, script[1..]);
      Associate(s.history.initiated, StartedBy(script[0], |s.bufs|), Starts(script[1..], |s.bufs|));
    }
  }

  lemma {:induction false} ActionActs(s: Conn, a: Action)
    requires !s.thrown && ValidOps(s) && (s.state != Opened || !a.Close?)
    ensures var m := Perform(s, a);
            && !m.thrown && ValidOps(m) && m.state == s.state && |m.bufs| == |s.bufs|
            && m.history.initiated == s.history.initiated + StartedBy(a, |s.bufs|)
  {
    assert s.history.initiated + [] == s.history.initiated;
  }

  /** One script after another is one script. */
  lemma {:induction false} ScriptsCompose(s: Conn, first: seq<Action>, second: seq<Action>)
    ensures RunScript(s, first + second) == RunScript(RunScript(s, first), second)
    decreases |first|
  {
    if first == [] {
      assert first + second == second;
    } else {
      assert (first + second)[1..] == first[1..] + second;
      if !s.thrown {
        ScriptsCompose(Perform(s, first[0]), first[1..], second);
      }
    }
  }

  /** A handler posted, of a read that finishes, or of a write that finishes, makes its calls. */
  lemma {:induction false} HandlersAct(s: Conn)
    requires !s.thrown && ValidOps(s)
    ensures forall i: nat | i < |s.posted| && s.posted[i].HandlerTask? && Harmless(s, s.posted[i].h) ::
              Acted(s, s.posted[i].h, RunTask(s, i))
    ensures s.readOp.Some? && Harmless(s, s.readOp.value.h) && Finishes(s) ==>
              Acted(s, s.readOp.value.h, SettleRead(s, NoError))
    ensures s.writeOp.Some? && Harmless(s, s.writeOp.value) && s.kcp.waitsnd <= IDLE_SEND_PACKET_COUNT ==>
              Acted(s, s.writeOp.value, CheckWrite(s, NoError))
  {
    forall i: nat | i < |s.posted| && s.posted[i].HandlerTask? && Harmless(s, s.posted[i].h)
      ensures Acted(s, s.posted[i].h, RunTask(s, i))
    {
      var h := s.posted[i].h;
      ScriptActs(Log(Dequeued(s, i), Completion(h, s.posted[i].ec, 0, OfPost)), h.script);
    }
    if s.readOp.Some? && Harmless(s, s.readOp.value.h) && Finishes(s) {
      ReadHandlerActs(s);
    }
    if s.writeOp.Some? && Harmless(s, s.writeOp.value) && s.kcp.waitsnd <= IDLE_SEND_PACKET_COUNT {
      ScriptActs(Log(s.(writeOp := None), Completion(s.writeOp.value, NoError, 0, OfWrite)), s.writeOp.value.script);
    }
  }

  /** A handler that does not close an open connection, so that no other handler runs inside it. */
  predicate Harmless(s: Conn, h: Handler) {
    s.state != Opened || NeverCloses(h.script)
  }

  predicate Acted(s: Conn, h: Handler, r: Conn) {
    !r.thrown && r.history.initiated == s.history.initiated + Starts(h.script, |s.bufs|)
  }

  /** What is queued finishes the pending read, and does not overflow its streambuf. */
  predicate Finishes(s: Conn)
    requires ValidOps(s)
  {
    s.readOp.Some? && CanFinish(s, s.readOp.value) && !Overflows(s, s.readOp.value)
  }

  lemma {:induction false} FinishedRead(s: Conn)
    requires !s.thrown && ValidOps(s) && Finishes(s)
    ensures var op := s.readOp.value;
            var a := TryRead(s.(readOp := None), op);
            && a.Done? && !a.next.thrown && ValidOps(a.next) && |a.next.bufs| == |s.bufs|
            && a.next == s.(readOp := None, kcp := s.kcp.(queue := a.next.kcp.queue), bufs := a.next.bufs,
                            history := s.history.(delivered := a.next.history.delivered,
                                                  emptied := a.next.history.emptied))
            && SettleRead(s, NoError) == RunScript(Log(a.next, ReadDone(op, NoError, a.n)), op.h.script)
  {
    var op := s.readOp.value;
    var t := s.(readOp := None);
    assert CanFinish(t, op) && !Overflows(t, op);
    ThrowsIfOverflows(t, op);
    TryReadExhausts(t, op);
    TryReadMoves(t, op);
    SettledRead(s);
  }

  lemma {:induction false} ReadHandlerActs(s: Conn)
    requires !s.thrown && ValidOps(s) && Finishes(s) && Harmless(s, s.readOp.value.h)
    ensures Acted(s, s.readOp.value.h, SettleRead(s, NoError))
  {
    var op := s.readOp.value;
    var a := TryRead(s.(readOp := None), op);
    FinishedRead(s);
    ScriptActs(Log(a.next, ReadDone(op, NoError, a.n)), op.h.script);
  }

  /**
   * The slot is free while the handler of a finished read runs: a handler that asks for more becomes the
   * next pending read, with a check posted for it.
   */
  lemma {:induction false} ReadAgain(s: Conn, next: ReadOp)
    requires !s.thrown && ValidOps(s) && Finishes(s) && s.state != Closed && next.SomeOp?
    requires s.readOp.value.h.script == [ReadSome(next.capacity, next.h)]
    ensures var r := SettleRead(s, NoError);
            r.readOp == Some(next) && r.posted == s.posted + [CheckTask]
  {
    var op := s.readOp.value;
    var a := TryRead(s.(readOp := None), op);
    FinishedRead(s);
    OneAction(Log(a.next, ReadDone(op, NoError, a.n)), op.h.script);
  }

  lemma {:induction false} OneAction(s: Conn, script: seq<Action>)
    requires |script| == 1 && !s.thrown
    ensures RunScript(s, script) == Perform(s, script[0])
  {
    assert RunScript(Perform(s, script[0]), script[1..]) == Perform(s, script[0]);
  }

  /** Likewise for a write: the handler's next write is sent, and answered or left waiting. */
  lemma {:induction false} WriteAgain(s: Conn, packets: nat, h: Handler)
    requires !s.thrown && ValidOps(s) && s.writeOp.Some? && s.state != Closed
    requires s.kcp.waitsnd <= IDLE_SEND_PACKET_COUNT
    requires s.writeOp.value.script == [Write(Queued(packets), h)]
    ensures var r := CheckWrite(s, NoError);
            && r.kcp.waitsnd == s.kcp.waitsnd + packets
            && if r.kcp.waitsnd <= IDLE_SEND_PACKET_COUNT
               then r.writeOp == None && r.posted == s.posted + [HandlerTask(h, NoError)]
               else r.writeOp == Some(h) && r.posted == s.posted
  {
    OneAction(Log(s.(writeOp := None), Completion(s.writeOp.value, NoError, 0, OfWrite)), s.writeOp.value.script);
  }

  /** Taking bytes from a streambuf: as many as asked for, or all there are, from the front. */
  lemma {:induction false} ConsumeOutcome(s: Conn, buf: nat, count: nat)
    requires !s.thrown && buf < |s.bufs|
    ensures var r := Perform(s, Consume(buf, count));
            var last := r.history.removed[|s.history.removed|..];
            && |r.bufs| == |s.bufs| && |last| == 1 && last[0].buf == buf
            && last[0].data + r.bufs[buf].data == s.bufs[buf].data
            && |last[0].data| == (if count > |s.bufs[buf].data| then |s.bufs[buf].data| else count)
            && r.bufs[buf].limit == s.bufs[buf].limit
            && (forall b | 0 <= b < |s.bufs| && b != buf :: r.bufs[b] == s.bufs[b])
            && r.posted == s.posted && r.readOp == s.readOp && r.writeOp == s.writeOp && r.kcp == s.kcp
  {
    var data := s.bufs[buf].data;
    assert data[..Min(count, |data|)] + data[Min(count, |data|)..] == data;
  }

  // ---------------------------------------------------------------- when KCP is driven

  /** KCP has been driven if it was due at `now`, and then comes due when it says; else it is as it was. */
  predicate Driven(s: Conn, r: Conn, now: int, next: int) {
    if s.nextTick <= now then !r.kcp.touched && r.nextTick == next
    else r.nextTick == s.nextTick && r.kcp.touched == s.kcp.touched
  }

  /** The timer of an open client drives KCP first; if it then does not close, it disturbs nothing. */
  lemma {:induction false} TimerDrives(s: Conn, at: int, next: int)
    requires Stable(s) && !s.thrown && !s.id.isServer && s.state == Opened
    ensures var r := Step(s, Timer(at, next));
            && Driven(s, r, at, next)
            && r.kcp.queue == s.kcp.queue && r.kcp.waitsnd == s.kcp.waitsnd
            && (at - s.nowTick <= TIMEOUT_DURATION ==>
                  && r.readOp == s.readOp && r.writeOp == s.writeOp
                  && r.posted == s.posted && r.history == s.history)
  {
    var e := Timer(at, next);
    if at - s.nowTick > TIMEOUT_DURATION {
      StepClosesBy(s, e);
      ClosedGet(BeforeClosing(s, e), TimedOut);
    }
  }

  /** Over every run: after a timer at or past time 0 nothing an open client has sent still waits for one. */
  lemma {:induction false} TimersLeaveNothingUnsent(id: Identity, now: int, events: seq<Event>, at: nat, next: int)
    requires !id.isServer
    requires var s := Run(NewConn(id, now), events); s.state == Opened && !s.thrown
    ensures !Run(NewConn(id, now), events + [Timer(at, next)]).kcp.touched
  {
    AppendOne(events, Timer(at, next));
    RunLives(id, now, events);
    TimerDrives(Run(NewConn(id, now), events), at, next);
  }

  /** A new connection is due from time 0 on, before anything has been sent on it. */
  lemma {:induction false} NewIsDue(id: Identity, made: int, now: nat, next: int)
    ensures UpdateConn(NewConn(id, made), now, next).nextTick == next
  {
  }

  /** What has been sent or has come in makes KCP due at once, and stays so until it is driven. */
  lemma {:induction false} WorkMakesKcpDue(s: Conn, data: seq<byte>, t: int, input: InputResult,
                                           result: SendResult, h: Handler)
    requires Settled(s) && !s.thrown
    ensures |data| >= KCP_HEADER_SIZE && data[0] == OPCODE_DATA ==>
              var r := OnReceive(s, data, t, input); r.kcp.touched && r.nextTick == 0
    ensures s.state != Closed && s.writeOp.None? ==>
              var r := InitiateWrite(s, result, h); r.kcp.touched && r.nextTick == 0
  {
    if |data| >= KCP_HEADER_SIZE && data[0] == OPCODE_DATA {
      var u := Arrived(s, t, input);
      ArrivedIsSound(s, data, t, input);
      CheckReadKeeps(u, NoError);
    }
  }
}
