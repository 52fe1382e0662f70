/**
 * What every run of a connection keeps, whatever its handlers do while they run inline:
 * each handler is accounted for exactly once, no byte is lost or reordered, no operation sleeps
 * while it could finish, and a connection closed with an error ends with nothing pending.
 */
module ConnectionLaws {
  import opened Common
  import opened KcpQueue
  import opened ConnectionSpec

  // ---------------------------------------------------------------- reading the history

  function Initiated(hs: seq<Handler>, h: Handler): nat {
    if hs == [] then 0 else Initiated(hs[..|hs| - 1], h) + One(hs[|hs| - 1] == h)
  }

  function Completed(cs: seq<Completion>, h: Handler): nat {
    if cs == [] then 0 else Completed(cs[..|cs| - 1], h) + One(cs[|cs| - 1].h == h)
  }

  function Posted(ts: seq<Task>, h: Handler): nat {
    if ts == [] then 0 else Posted(ts[..|ts| - 1], h) + InTask(ts[|ts| - 1], h)
  }

  function InTask(t: Task, h: Handler): nat {
    One(t.HandlerTask? && t.h == h)
  }

  function Pending(s: Conn, h: Handler): nat {
    One(s.readOp.Some? && s.readOp.value.h == h) + One(s.writeOp.Some? && s.writeOp.value == h)
  }

  function One(b: bool): nat {
    if b then 1 else 0
  }

  /** Everything KCP handed to the user, in order. */
  function DeliveredBytes(ds: seq<Delivery>): seq<byte> {
    if ds == [] then [] else DeliveredBytes(ds[..|ds| - 1]) + ds[|ds| - 1].data
  }

  function DeliveredTo(ds: seq<Delivery>, buf: nat): seq<byte> {
    if ds == [] then []
    else
      var d := ds[|ds| - 1];
      DeliveredTo(ds[..|ds| - 1], buf) + if d.ToStream? && d.buf == buf then d.data else []
  }

  function RemovedFrom(rs: seq<Removal>, buf: nat): seq<byte> {
    if rs == [] then []
    else
      var r := rs[|rs| - 1];
      RemovedFrom(rs[..|rs| - 1], buf) + if r.buf == buf then r.data else []
  }

  /** What the handler of a read into an array was told, and how many bytes it then found there. */
  datatype Told = Told(h: Handler, n: nat)

  function ToldByReads(cs: seq<Completion>): seq<Told> {
    if cs == [] then []
    else
      var c := cs[|cs| - 1];
      ToldByReads(cs[..|cs| - 1])
      + if c.cause.OfRead? && c.cause.op.SomeOp? && c.ec == NoError then [Told(c.h, c.n)] else []
  }

  function FoundInArrays(ds: seq<Delivery>): seq<Told> {
    if ds == [] then []
    else
      var d := ds[|ds| - 1];
      FoundInArrays(ds[..|ds| - 1]) + if d.ToArray? then [Told(d.h, |d.data|)] else []
  }

  /** A count goes with success only; it fits the array, or is what the read asked for. */
  predicate CountRight(c: Completion) {
    && (c.cause.OfRead? ==> c.h == c.cause.op.h)
    && if c.cause.OfRead? && c.ec == NoError then
         match c.cause.op
         case SomeOp(_, capacity) => 0 < c.n <= capacity
         case StreamOp(_, _, need) => c.n == need
       else c.n == 0
  }

  /** The bytes KCP accepts in one step, read off the step alone. */
  function AcceptedBy(e: Event): seq<byte> {
    if e.Receive? && |e.data| >= KCP_HEADER_SIZE && e.data[0] == OPCODE_DATA
    then QueueBytes(e.input.segments) else []
  }

  function AcceptedBytes(events: seq<Event>): seq<byte> {
    if events == [] then []
    else AcceptedBytes(events[..|events| - 1]) + AcceptedBy(events[|events| - 1])
  }

  /** The bytes delivered so far, followed by those still queued in KCP. */
  function Stream(s: Conn): seq<byte> {
    DeliveredBytes(s.history.delivered) + QueueBytes(s.kcp.queue)
  }

  // ---------------------------------------------------------------- invariants

  /** Uses of a handler in initiations that are neither completed, posted, pending nor dropped. */
  function Missing(s: Conn, h: Handler): int {
    Initiated(s.history.initiated, h)
    - Completed(s.history.completed, h) - Posted(s.posted, h) - Pending(s, h)
    - One(s.history.dropped == Some(h))
  }

  /** Every use of a handler in an initiation is in exactly one of these places. */
  ghost predicate HandlersConserved(s: Conn) {
    forall h: Handler :: Missing(s, h) == 0
  }

  predicate BuffersConserved(s: Conn) {
    Balanced(s.history.delivered, s.history.removed, s.bufs)
  }

  /** What has been taken out of each streambuf, and what it holds, is what was delivered to it. */
  predicate Balanced(delivered: seq<Delivery>, removed: seq<Removal>, bufs: seq<Buffer>) {
    && (forall d <- delivered | d.ToStream? :: d.buf < |bufs|)
    && (forall r <- removed :: r.buf < |bufs|)
    && forall b | 0 <= b < |bufs| :: RemovedFrom(removed, b) + bufs[b].data == DeliveredTo(delivered, b)
  }

  /** Every count a handler was told is right, and the arrays got just what their handlers were told. */
  predicate CountsAgree(delivered: seq<Delivery>, completed: seq<Completion>) {
    && ToldByReads(completed) == FoundInArrays(delivered)
    && forall c <- completed :: CountRight(c)
  }

  /** An operation that had a slot succeeds, or is told why the connection was closed; nothing else. */
  predicate CodesAgree(completed: seq<Completion>, state: State, reason: ErrorCode) {
    forall c <- completed | !c.cause.OfPost? :: c.ec == NoError || (state == Closed && c.ec == reason)
  }

  predicate ToldWhy(s: Conn) {
    CodesAgree(s.history.completed, s.state, s.history.reason)
  }

  /** Only close hands an error to the checks, and by then the connection is closed for that reason. */
  predicate Apt(s: Conn, ec: ErrorCode) {
    ec == NoError || (s.state == Closed && s.history.reason == ec)
  }

  /**
   * A pending read that nobody is about to try cannot finish; the one exception is a read put back
   * behind an empty message, which may have hidden enough.
   */
  predicate ReadAwake(s: Conn) {
    s.readOp.Some? ==>
      && ValidOp(s, s.readOp.value)
      && (CheckTask in s.posted || s.history.emptied || !CanFinish(s, s.readOp.value))
  }

  /** No empty message is queued, nor has one held up a read. */
  predicate NeverEmptied(queue: seq<Segment>, emptied: bool) {
    NoneEmpty(queue) && !emptied
  }

  predicate WriteBlocked(s: Conn) {
    s.writeOp.Some? ==> s.kcp.waitsnd > IDLE_SEND_PACKET_COUNT
  }

  predicate KcpAwake(s: Conn) {
    s.kcp.touched ==> s.nextTick == 0
  }

  predicate Drained(s: Conn) {
    s.state == Closed && s.history.reason != NoError ==> s.readOp.None? && s.writeOp.None?
  }

  predicate ValidOps(s: Conn) {
    s.readOp.Some? ==> ValidOp(s, s.readOp.value)
  }

  /** Holds between any two calls, inside handlers as well. */
  ghost predicate Sound(s: Conn) {
    && ValidOps(s)
    && HandlersConserved(s)
    && BuffersConserved(s)
    && CountsAgree(s.history.delivered, s.history.completed)
    && ToldWhy(s)
    && KcpAwake(s)
  }

  /** Holds between outermost steps. */
  ghost predicate Settled(s: Conn) {
    && Sound(s)
    && ReadAwake(s)
    && WriteBlocked(s)
    && Drained(s)
    && s.history.dropped.None?
    && s.history.disconnects == if s.state == Closed then 1 else 0
  }

  /** An open client has a receive under way and its timer running; a closed one has given up its socket. */
  predicate ClientRuns(s: Conn) {
    !s.id.isServer ==>
      && (s.state == Idle ==> s.io == NOT_STARTED)
      && (s.state == Opened ==> s.io == STARTED)
      && (s.state == Closed ==> !s.io.receiving && !s.io.socketOpen)
  }

  ghost predicate Stable(s: Conn) {
    Settled(s) && ClientRuns(s)
  }

  /** What is left when a read has thrown: everything but the wake-ups and that streambuf. */
  ghost predicate Torn(s: Conn) {
    && HandlersConserved(s)
    && CountsAgree(s.history.delivered, s.history.completed)
    && ToldWhy(s)
    && KcpAwake(s)
    && s.history.dropped.Some?
    && s.bufs == []
    && s.history.disconnects <= (if s.state == Closed then 1 else 0)
    && (s.state == Closed ==> s.history.reason == NoError)
  }

  /** Every streambuf could take all bytes ever accepted, `more` further ones, and one more prepare. */
  predicate HasRoom(s: Conn, more: nat) {
    forall b | 0 <= b < |s.bufs| :: |Stream(s)| + more + READ_CHUNK <= s.bufs[b].limit
  }

  predicate SameLimits(s: Conn, r: Conn) {
    |r.bufs| == |s.bufs| && forall b | 0 <= b < |s.bufs| :: r.bufs[b].limit == s.bufs[b].limit
  }

  // ---------------------------------------------------------------- list facts

  lemma {:induction false} PostedAppend(p: seq<Task>, q: seq<Task>, h: Handler)
    ensures Posted(p + q, h) == Posted(p, h) + Posted(q, h)
  {
    if q == [] {
      assert p + q == p;
    } else {
      assert (p + q)[..|p + q| - 1] == p + q[..|q| - 1];
      PostedAppend(p, q[..|q| - 1], h);
    }
  }

  lemma {:induction false} PostedRemove(p: seq<Task>, i: nat, h: Handler)
    requires i < |p|
    ensures Posted(p, h) == Posted(p[..i] + p[i + 1..], h) + InTask(p[i], h)
  {
    assert p == p[..i] + ([p[i]] + p[i + 1..]);
    PostedAppend(p[..i], [p[i]] + p[i + 1..], h);
    PostedAppend([p[i]], p[i + 1..], h);
    PostedAppend(p[..i], p[i + 1..], h);
    assert [p[i]][..0] == [];
  }

  // ---------------------------------------------------------------- what a call inside a step keeps

  /** What user code and the completions it triggers can and cannot change. */
  ghost predicate Keeps(s: Conn, r: Conn) {
    && r.id == s.id && r.nowTick == s.nowTick
    && s.history.completed <= r.history.completed
    && Stream(r) == Stream(s)
    && (s.state != Opened ==> r.state == s.state)
    && (r.state == s.state || r.state == Closed)
    && (s.state == Closed ==> r.history.reason == s.history.reason && r.kcp.waitsnd == s.kcp.waitsnd)
    && (HandlersConserved(s) && s.history.dropped.None? ==> HandlersConserved(r))
    && (KcpAwake(s) ==> KcpAwake(r))
    && (CountsAgree(s.history.delivered, s.history.completed)
        ==> CountsAgree(r.history.delivered, r.history.completed))
    && (NeverEmptied(s.kcp.queue, s.history.emptied) ==> NeverEmptied(r.kcp.queue, r.history.emptied))
    && (ToldWhy(s) ==> ToldWhy(r))
    && (r.nextTick == s.nextTick || r.nextTick == 0) && (s.kcp.touched ==> r.kcp.touched)
    && (s.thrown ==> r == s)
    && (!r.thrown ==> KeepsUnlessThrown(s, r))
    && (r.thrown && !s.thrown ==> Tears(s, r))
  }

  ghost predicate KeepsUnlessThrown(s: Conn, r: Conn) {
    && !s.thrown
    && SameLimits(s, r)
    && (ValidOps(s) ==> ValidOps(r))
    && (BuffersConserved(s) ==> BuffersConserved(r))
    && (ReadAwake(s) ==> ReadAwake(r))
    && (CheckTask in s.posted || (s.readOp.None? && r.readOp.Some?) ==> CheckTask in r.posted)
    && (WriteBlocked(s) ==> WriteBlocked(r))
    && (s.state == Closed && s.readOp.None? ==> r.readOp.None?)
    && (s.state == Closed && s.writeOp.None? ==> r.writeOp.None?)
    && (s.state == Opened ==> Drained(r))
    && r.history.dropped == s.history.dropped
    && Closes(s, r)
  }

  /** Closing sends one frame, and stops a client; nothing else does either. */
  predicate Closes(s: Conn, r: Conn) {
    var closes := s.state != Closed && r.state == Closed;
    && r.history.disconnects == s.history.disconnects + (if closes then 1 else 0)
    && r.io == if closes && !s.id.isServer then STOPPED else s.io
  }

  /** When something throws: there was not room for everything, and no error was being delivered. */
  ghost predicate Tears(s: Conn, r: Conn) {
    && !(BuffersConserved(s) && HasRoom(s, 0))
    && r.bufs == []
    && (s.state == Closed ==> s.readOp.Some?)
    && (s.state == Opened && r.state == Closed ==> r.history.reason == NoError)
    && (s.history.dropped.None? ==> r.history.dropped.Some?)
    && s.history.disconnects <= r.history.disconnects
    && r.history.disconnects <= s.history.disconnects + (if s.state != Closed && r.state == Closed then 1 else 0)
  }

  lemma {:induction false} KeepsTransitive(s: Conn, m: Conn, r: Conn)
    requires Keeps(s, m) && Keeps(m, r)
    ensures Keeps(s, r)
  {
  }

  lemma {:induction false} InitiateReadKeeps(s: Conn, op: ReadOp)
    requires !s.thrown && ValidOp(s, op)
    ensures Keeps(s, InitiateRead(s, op))
  {
    var r := InitiateRead(s, op);
    assert CheckTask in s.posted ==> CheckTask in r.posted;
    forall h: Handler ensures Missing(r, h) == Missing(s, h) {
      InitiateReadConserves(s, op, h);
    }
  }

  lemma {:induction false} InitiateReadConserves(s: Conn, op: ReadOp, h: Handler)
    ensures Missing(InitiateRead(s, op), h) == Missing(s, h)
  {
    BeginAdds(s, op.h, h);
    var t := Begin(s, op.h);
    if t.readOp.Some? || t.state == Closed {
      PostAdds(t, HandlerTask(op.h, if t.state == Closed then OperationAborted else InProgress), h);
    } else {
      PostAdds(t.(readOp := Some(op)), CheckTask, h);
    }
  }

  lemma {:induction false} BeginAdds(s: Conn, x: Handler, h: Handler)
    ensures Missing(Begin(s, x), h) == Missing(s, h) + One(x == h)
  {
    AppendOne(s.history.initiated, x);
  }

  lemma {:induction false} PostAdds(s: Conn, t: Task, h: Handler)
    ensures Missing(Post(s, t), h) == Missing(s, h) - InTask(t, h)
  {
    AppendOne(s.posted, t);
  }

  lemma {:induction false} InitiateWriteKeeps(s: Conn, result: SendResult, h: Handler)
    requires !s.thrown
    ensures Keeps(s, InitiateWrite(s, result, h))
  {
    var r := InitiateWrite(s, result, h);
    forall g: Handler ensures Missing(r, g) == Missing(s, g) {
      InitiateWriteConserves(s, result, h, g);
    }
    InitiateWriteAdds(s, result, h);
  }

  /** A write touches the send side, the posted tasks and its own slot, and that only while not closed. */
  lemma {:induction false} InitiateWriteAdds(s: Conn, result: SendResult, h: Handler)
    ensures var r := InitiateWrite(s, result, h);
            && r == s.(nextTick := r.nextTick, kcp := r.kcp, writeOp := r.writeOp, posted := r.posted,
                       history := s.history.(initiated := r.history.initiated))
            && r.kcp.queue == s.kcp.queue
            && s.posted <= r.posted
            && (KcpAwake(s) ==> KcpAwake(r)) && (WriteBlocked(s) ==> WriteBlocked(r))
            && (s.state == Closed ==> r.writeOp == s.writeOp && r.kcp == s.kcp)
  {
  }

  lemma {:induction false} StoreWriteAdds(s: Conn, x: Handler, h: Handler)
    requires s.writeOp.None?
    ensures Missing(s.(writeOp := Some(x)), h) == Missing(s, h) - One(x == h)
  {
  }

  lemma {:induction false} InitiateWriteConserves(s: Conn, result: SendResult, x: Handler, h: Handler)
    ensures Missing(InitiateWrite(s, result, x), h) == Missing(s, h)
  {
    BeginAdds(s, x, h);
    var t := Begin(s, x);
    if t.writeOp.Some? || t.state == Closed {
      PostAdds(t, HandlerTask(x, if t.state == Closed then OperationAborted else InProgress), h);
    } else {
      SendConserves(t, result, x, h);
    }
  }

  lemma {:induction false} SendConserves(t: Conn, result: SendResult, x: Handler, h: Handler)
    requires t.writeOp.None? && t.state != Closed
    ensures Missing(Send(t, result, x), h) == Missing(t, h) - One(x == h)
  {
    var u := t.(nextTick := 0, kcp := t.kcp.(touched := true));
    match result
    case Rejected => PostAdds(u, HandlerTask(x, MessageSize), h);
    case Queued(packets) =>
      var v := u.(kcp := u.kcp.(waitsnd := u.kcp.waitsnd + packets));
      if v.kcp.waitsnd <= IDLE_SEND_PACKET_COUNT {
        PostAdds(v, HandlerTask(x, NoError), h);
      } else {
        StoreWriteAdds(v, x, h);
      }
  }

  lemma {:induction false} ConsumeKeeps(s: Conn, buf: nat, count: nat)
    requires !s.thrown && buf < |s.bufs|
    ensures Keeps(s, ConsumeBuffer(s, buf, count))
  {
    var r := ConsumeBuffer(s, buf, count);
    assert forall h :: Missing(r, h) == Missing(s, h);
    if BuffersConserved(s) {
      ConsumeBalances(s.history.delivered, s.history.removed, s.bufs, buf, Min(count, |s.bufs[buf].data|));
    }
  }

  lemma {:induction false} ConsumeBalances(delivered: seq<Delivery>, removed: seq<Removal>, bufs: seq<Buffer>,
                                           buf: nat, n: nat)
    requires Balanced(delivered, removed, bufs) && buf < |bufs| && n <= |bufs[buf].data|
    ensures Balanced(delivered, removed + [Removal(buf, bufs[buf].data[..n])],
                     bufs[buf := bufs[buf].(data := bufs[buf].data[n..])])
  {
    var data := bufs[buf].data;
    AppendOne(removed, Removal(buf, data[..n]));
    forall i | 0 <= i < |bufs|
      ensures RemovedFrom(removed + [Removal(buf, data[..n])], i)
              + bufs[buf := bufs[buf].(data := data[n..])][i].data == DeliveredTo(delivered, i)
    {
      if i == buf {
        assert data == data[..n] + data[n..];
        assert RemovedFrom(removed, i) + (data[..n] + data[n..]) == RemovedFrom(removed, i) + data[..n] + data[n..];
      }
    }
  }

  // ---------------------------------------------------------------- one operation leaves its slot

  lemma {:induction false} LogAdds(s: Conn, c: Completion, h: Handler)
    ensures Missing(Log(s, c), h) == Missing(s, h) - One(c.h == h)
  {
    AppendOne(s.history.completed, c);
  }

  lemma {:induction false} LogAgrees(delivered: seq<Delivery>, completed: seq<Completion>, c: Completion)
    requires CountsAgree(delivered, completed) && CountRight(c)
    requires !(c.cause.OfRead? && c.cause.op.SomeOp? && c.ec == NoError)
    ensures CountsAgree(delivered, completed + [c])
  {
    AppendOne(completed, c);
    assert ToldByReads(completed + [c]) == ToldByReads(completed) + [];
  }

  lemma {:induction false} LogTells(completed: seq<Completion>, state: State, reason: ErrorCode, c: Completion)
    requires CodesAgree(completed, state, reason)
    requires c.cause.OfPost? || c.ec == NoError || (state == Closed && c.ec == reason)
    ensures CodesAgree(completed + [c], state, reason)
  {
  }

  lemma {:induction false} FinishReadConserves(s: Conn, t: Conn, c: Completion, h: Handler)
    requires s.readOp.Some? && t.readOp.None? && t.writeOp == s.writeOp && t.posted == s.posted
    requires t.history == s.history.(delivered := t.history.delivered)
    requires c.h == s.readOp.value.h
    ensures Missing(Log(t, c), h) == Missing(s, h)
  {
    LogAdds(t, c, h);
  }

  lemma {:induction false} FailReadKeeps(s: Conn, ec: ErrorCode)
    requires !s.thrown && s.readOp.Some? && ec != NoError && Apt(s, ec)
    ensures Keeps(s, Log(s.(readOp := None), ReadDone(s.readOp.value, ec, 0)))
  {
    var c := ReadDone(s.readOp.value, ec, 0);
    forall h: Handler ensures Missing(Log(s.(readOp := None), c), h) == Missing(s, h) {
      FinishReadConserves(s, s.(readOp := None), c, h);
    }
    if CountsAgree(s.history.delivered, s.history.completed) {
      LogAgrees(s.history.delivered, s.history.completed, c);
    }
  }

  lemma {:induction false} FinishWriteKeeps(s: Conn, ec: ErrorCode)
    requires !s.thrown && s.writeOp.Some? && Apt(s, ec)
    ensures Keeps(s, Log(s.(writeOp := None), Completion(s.writeOp.value, ec, 0, OfWrite)))
  {
    var c := Completion(s.writeOp.value, ec, 0, OfWrite);
    forall h: Handler ensures Missing(Log(s.(writeOp := None), c), h) == Missing(s, h) {
      LogAdds(s.(writeOp := None), c, h);
    }
    if ToldWhy(s) {
      LogTells(s.history.completed, s.state, s.history.reason, c);
    }
    if CountsAgree(s.history.delivered, s.history.completed) {
      LogAgrees(s.history.delivered, s.history.completed, c);
    }
  }

  // ---------------------------------------------------------------- one attempt of a read

  lemma {:induction false} DeliverAdds(s: Conn, d: Delivery)
    ensures DeliveredBytes(Deliver(s, d).history.delivered) == DeliveredBytes(s.history.delivered) + d.data
    ensures forall b: nat ::
              DeliveredTo(Deliver(s, d).history.delivered, b)
              == DeliveredTo(s.history.delivered, b) + if d.ToStream? && d.buf == b then d.data else []
  {
    AppendOne(s.history.delivered, d);
  }

  /** The connection after an attempt, with the operation that made it still out of its slot. */
  function AfterAttempt(a: Attempt): Conn {
    match a
    case Done(t, _) => t
    case NotYet(t) => t
    case Threw(t) => t
  }

  lemma {:induction false} TryReadStream(s: Conn, op: ReadOp)
    requires ValidOp(s, op)
    ensures Stream(AfterAttempt(TryRead(s, op))) == Stream(s)
  {
    match op
    case SomeOp(h, capacity) =>
      var r := Recv(s.kcp.queue, capacity);
      RecvTakes(s.kcp.queue, capacity);
      if r.n > 0 {
        DeliverAdds(s, ToArray(h, r.data));
        Associate(DeliveredBytes(s.history.delivered), r.data, QueueBytes(r.rest));
      } else {
        assert r.data == [] && [] + QueueBytes(r.rest) == QueueBytes(r.rest);
      }
    case StreamOp(h, buf, need) =>
      var b := s.bufs[buf];
      var d := Drain(s.kcp.queue, b.data, b.limit);
      DrainGrows(s.kcp.queue, b.data, b.limit);
      var arrived := d.data[|b.data|..];
      DeliverAdds(s, ToStream(buf, arrived));
      DrainedSuffix(b.data, d.data, QueueBytes(d.queue), QueueBytes(s.kcp.queue));
      Associate(DeliveredBytes(s.history.delivered), arrived, QueueBytes(d.queue));
  }

  lemma {:induction false} DrainedSuffix(before: seq<byte>, after: seq<byte>, rest: seq<byte>, queued: seq<byte>)
    requires before <= after
    requires after + rest == before + queued
    ensures after[|before|..] + rest == queued
  {
    assert after[|before|..] + rest == (after + rest)[|before|..];
    assert (before + queued)[|before|..] == queued;
  }

  lemma {:induction false} DeliverToBuffer(delivered: seq<Delivery>, removed: seq<Removal>, bufs: seq<Buffer>,
                        buf: nat, arrived: seq<byte>, b: Buffer)
    requires Balanced(delivered, removed, bufs) && buf < |bufs|
    requires b.data == bufs[buf].data + arrived
    ensures Balanced(delivered + [ToStream(buf, arrived)], removed, bufs[buf := b])
  {
    AppendOne(delivered, ToStream(buf, arrived));
    forall i | 0 <= i < |bufs|
      ensures RemovedFrom(removed, i) + bufs[buf := b][i].data
           == DeliveredTo(delivered + [ToStream(buf, arrived)], i)
    {
      BufferGrows(RemovedFrom(removed, i), bufs[i].data, DeliveredTo(delivered, i),
                  if i == buf then arrived else []);
    }
  }

  lemma {:induction false} DeliverToArray(delivered: seq<Delivery>, removed: seq<Removal>, bufs: seq<Buffer>,
                                          d: Delivery)
    requires Balanced(delivered, removed, bufs) && d.ToArray?
    ensures Balanced(delivered + [d], removed, bufs)
  {
    AppendOne(delivered, d);
    assert forall i: nat :: DeliveredTo(delivered + [d], i) == DeliveredTo(delivered, i) + [];
  }

  lemma {:induction false} BufferGrows(removed: seq<byte>, data: seq<byte>, delivered: seq<byte>, arrived: seq<byte>)
    requires removed + data == delivered
    ensures removed + (data + arrived) == delivered + arrived
    ensures arrived == [] ==> data + arrived == data && delivered + arrived == delivered
  {
  }

  lemma {:induction false} TryReadBuffers(s: Conn, op: ReadOp)
    requires ValidOp(s, op) && BuffersConserved(s)
    ensures TryRead(s, op).Threw? || BuffersConserved(AfterAttempt(TryRead(s, op)))
  {
    match op
    case SomeOp(h, capacity) =>
      if TryRead(s, op).Done? {
        DeliverToArray(s.history.delivered, s.history.removed, s.bufs, ToArray(h, Recv(s.kcp.queue, capacity).data));
      }
    case StreamOp(h, buf, need) =>
      var b := s.bufs[buf];
      var d := Drain(s.kcp.queue, b.data, b.limit);
      DrainGrows(s.kcp.queue, b.data, b.limit);
      if d.ok {
        DeliverToBuffer(s.history.delivered, s.history.removed, s.bufs, buf, d.data[|b.data|..], b.(data := d.data));
      }
  }

  /** An attempt that does not throw moves bytes out of KCP and changes nothing else. */
  ghost predicate Attempted(s: Conn, t: Conn) {
    && t == s.(kcp := s.kcp.(queue := t.kcp.queue), bufs := t.bufs,
               history := s.history.(delivered := t.history.delivered, emptied := t.history.emptied))
    && SameLimits(s, t)
    && Stream(t) == Stream(s)
    && (BuffersConserved(s) ==> BuffersConserved(t))
    && (NeverEmptied(s.kcp.queue, s.history.emptied) ==> NeverEmptied(t.kcp.queue, t.history.emptied))
  }

  lemma {:induction false} TryReadAttempts(s: Conn, op: ReadOp)
    requires ValidOp(s, op) && !TryRead(s, op).Threw?
    ensures Attempted(s, TryRead(s, op).next)
    ensures TryRead(s, op).Done? <==> CanFinish(s, op)
    ensures TryRead(s, op).NotYet? ==>
              TryRead(s, op).next.history.emptied || !CanFinish(TryRead(s, op).next, op)
  {
    TryReadStream(s, op);
    if BuffersConserved(s) {
      TryReadBuffers(s, op);
    }
    if NeverEmptied(s.kcp.queue, s.history.emptied) {
      TryReadLeavesFull(s, op);
    }
    TryReadMoves(s, op);
    TryReadExhausts(s, op);
  }

  lemma {:induction false} TryReadMoves(s: Conn, op: ReadOp)
    requires ValidOp(s, op) && !TryRead(s, op).Threw?
    ensures var t := TryRead(s, op).next;
            && t == s.(kcp := s.kcp.(queue := t.kcp.queue), bufs := t.bufs,
                       history := s.history.(delivered := t.history.delivered, emptied := t.history.emptied))
            && SameLimits(s, t)
  {
  }

  lemma {:induction false} TryReadLeavesFull(s: Conn, op: ReadOp)
    requires ValidOp(s, op) && NeverEmptied(s.kcp.queue, s.history.emptied)
    ensures var t := AfterAttempt(TryRead(s, op)); NeverEmptied(t.kcp.queue, t.history.emptied)
  {
    match op
    case SomeOp(h, capacity) => NoneEmptyRecv(s.kcp.queue, capacity);
    case StreamOp(h, buf, need) => NoneEmptyDrain(s.kcp.queue, s.bufs[buf].data, s.bufs[buf].limit);
  }

  lemma {:induction false} NoneEmptyDrain(q: seq<Segment>, data: seq<byte>, limit: nat)
    requires NoneEmpty(q)
    ensures NoneEmpty(Drain(q, data, limit).queue) && !Drain(q, data, limit).emptied
    decreases |q|
  {
    if |data| + READ_CHUNK <= limit {
      var r := Recv(q, READ_CHUNK);
      NoneEmptyRecv(q, READ_CHUNK);
      if r.n > 0 {
        NoneEmptyDrain(r.rest, data + r.data, limit);
      }
    }
  }

  lemma {:induction false} FinishReadKeeps(s: Conn, t: Conn, n: nat)
    requires !s.thrown && s.readOp.Some? && ValidOps(s)
    requires TryRead(s.(readOp := None), s.readOp.value) == Done(t, n)
    requires Attempted(s.(readOp := None), t)
    ensures Keeps(s, Log(t, ReadDone(s.readOp.value, NoError, n)))
  {
    var c := ReadDone(s.readOp.value, NoError, n);
    assert t.history.emptied == s.history.emptied;
    forall h: Handler ensures Missing(Log(t, c), h) == Missing(s, h) {
      FinishReadConserves(s, t, c, h);
    }
    if ToldWhy(s) {
      LogTells(s.history.completed, s.state, s.history.reason, c);
    }
    if CountsAgree(s.history.delivered, s.history.completed) {
      FinishReadAgrees(s.(readOp := None), s.readOp.value);
    }
  }

  /** The handler of a read into an array is told how many bytes that array has just got. */
  lemma {:induction false} FinishReadAgrees(s: Conn, op: ReadOp)
    requires ValidOp(s, op) && TryRead(s, op).Done? && CountsAgree(s.history.delivered, s.history.completed)
    ensures var a := TryRead(s, op);
            CountsAgree(a.next.history.delivered, s.history.completed + [ReadDone(op, NoError, a.n)])
  {
    var a := TryRead(s, op);
    var c := ReadDone(op, NoError, a.n);
    match op
    case SomeOp(h, capacity) =>
      AppendOne(s.history.completed, c);
      AppendOne(s.history.delivered, ToArray(h, Recv(s.kcp.queue, capacity).data));
    case StreamOp(h, buf, need) =>
      StreamDeliveryAgrees(s, op);
      LogAgrees(a.next.history.delivered, s.history.completed, c);
  }

  lemma {:induction false} StreamDeliveryAgrees(s: Conn, op: ReadOp)
    requires ValidOp(s, op) && op.StreamOp? && CountsAgree(s.history.delivered, s.history.completed)
    ensures CountsAgree(AfterAttempt(TryRead(s, op)).history.delivered, s.history.completed)
  {
    var b := s.bufs[op.buf];
    var d := Drain(s.kcp.queue, b.data, b.limit);
    DrainGrows(s.kcp.queue, b.data, b.limit);
    var last := ToStream(op.buf, d.data[|b.data|..]);
    AppendOne(s.history.delivered, last);
    assert FoundInArrays(s.history.delivered + [last]) == FoundInArrays(s.history.delivered) + [];
  }

  lemma {:induction false} ParkReadKeeps(s: Conn, t: Conn)
    requires !s.thrown && s.readOp.Some? && ValidOps(s)
    requires CountsAgree(s.history.delivered, s.history.completed)
             ==> CountsAgree(t.history.delivered, s.history.completed)
    requires Attempted(s.(readOp := None), t) && (t.history.emptied || !CanFinish(t, s.readOp.value))
    ensures Keeps(s, t.(readOp := s.readOp)) && ReadAwake(t.(readOp := s.readOp))
  {
    forall h: Handler ensures Missing(t.(readOp := s.readOp), h) == Missing(s, h) {
    }
  }

  lemma {:induction false} FailedAttemptAgrees(s: Conn, op: ReadOp)
    requires ValidOp(s, op) && TryRead(s, op).NotYet? && CountsAgree(s.history.delivered, s.history.completed)
    ensures CountsAgree(TryRead(s, op).next.history.delivered, s.history.completed)
  {
    if op.StreamOp? {
      StreamDeliveryAgrees(s, op);
    }
  }

  // ---------------------------------------------------------------- exactly what an attempt does

  /** The queue from the first message on that a read into a streambuf cannot take. */
  function Stopped(q: seq<Segment>): seq<Segment>
    decreases |q|
  {
    var r := Recv(q, READ_CHUNK);
    if r.n > 0 then Stopped(r.rest) else q
  }

  /** The loop takes what fits, and the message that stops it exactly if that is empty. */
  lemma {:induction false} DrainTakesFitting(q: seq<Segment>, data: seq<byte>, limit: nat)
    ensures var d := Drain(q, data, limit);
            && (d.ok <==> |data| + |Fitting(q)| + READ_CHUNK <= limit)
            && (d.ok ==> d.data == data + Fitting(q) && d.queue == Recv(Stopped(q), READ_CHUNK).rest)
            && (d.ok ==> (d.emptied <==> Recv(Stopped(q), READ_CHUNK).n == 0))
    ensures Recv(Stopped(q), READ_CHUNK).n <= 0
    decreases |q|
  {
    var r := Recv(q, READ_CHUNK);
    if r.n > 0 {
      DrainTakesFitting(r.rest, data + r.data, limit);
      Associate(data, r.data, Fitting(r.rest));
    } else {
      assert data + [] == data;
    }
  }

  /**
   * There is an empty message in front of enough for the read: the first message that is empty or too
   * big for it is empty, what lies before that is too little, and what lies behind it is enough.
   */
  predicate HiddenByEmpty(s: Conn, op: ReadOp)
    requires ValidOp(s, op)
  {
    match op
    case SomeOp(_, capacity) =>
      var first := Recv(s.kcp.queue, capacity);
      first.n == 0 && Recv(first.rest, capacity).n > 0
    case StreamOp(_, buf, need) =>
      var before := |s.bufs[buf].data| + |Fitting(s.kcp.queue)|;
      var stop := Recv(Stopped(s.kcp.queue), READ_CHUNK);
      stop.n == 0 && before < need <= before + |Fitting(stop.rest)|
  }

  lemma {:induction false} TryReadExhausts(s: Conn, op: ReadOp)
    requires ValidOp(s, op) && !TryRead(s, op).Threw?
    ensures var a := TryRead(s, op);
            && (a.Done? <==> CanFinish(s, op))
            && ValidOp(a.next, op)
            && (a.NotYet? ==> (CanFinish(a.next, op) <==> HiddenByEmpty(s, op)))
            && (HiddenByEmpty(s, op) ==> a.NotYet?)
            && (a.NotYet? && CanFinish(a.next, op) ==> a.next.history.emptied)
  {
    if op.StreamOp? {
      DrainTakesFitting(s.kcp.queue, s.bufs[op.buf].data, s.bufs[op.buf].limit);
      StoppedStays(s.kcp.queue);
    }
  }

  /** A loop stopped by anything but an empty message would be stopped at once again. */
  lemma {:induction false} StoppedStays(q: seq<Segment>)
    ensures var stop := Recv(Stopped(q), READ_CHUNK);
            stop.n <= 0 && (stop.n < 0 ==> stop.rest == Stopped(q) && Fitting(stop.rest) == [])
    decreases |q|
  {
    var r := Recv(q, READ_CHUNK);
    if r.n > 0 {
      StoppedStays(r.rest);
    }
  }

  lemma {:induction false} FittingIsQueued(q: seq<Segment>)
    ensures |Fitting(q)| <= |QueueBytes(q)|
    decreases |q|
  {
    var r := Recv(q, READ_CHUNK);
    RecvTakes(q, READ_CHUNK);
    if r.n > 0 {
      FittingIsQueued(r.rest);
    }
  }

  lemma {:induction false} DeliveredToIsDelivered(ds: seq<Delivery>, buf: nat)
    ensures |DeliveredTo(ds, buf)| <= |DeliveredBytes(ds)|
  {
    if ds != [] {
      DeliveredToIsDelivered(ds[..|ds| - 1], buf);
    }
  }

  /** A streambuf holds no more than was delivered, so with room for everything it never throws. */
  lemma {:induction false} RoomIsEnough(s: Conn, op: ReadOp)
    requires ValidOp(s, op) && BuffersConserved(s) && HasRoom(s, 0)
    ensures !TryRead(s, op).Threw?
  {
    if op.StreamOp? {
      var b := s.bufs[op.buf];
      DrainTakesFitting(s.kcp.queue, b.data, b.limit);
      FittingIsQueued(s.kcp.queue);
      DeliveredToIsDelivered(s.history.delivered, op.buf);
      assert |b.data| <= |DeliveredTo(s.history.delivered, op.buf)|;
    }
  }

  /** An attempt that throws has moved the same bytes, and given up the streambuf and the handler. */
  lemma {:induction false} TryReadThrows(s: Conn, op: ReadOp)
    requires ValidOp(s, op) && TryRead(s, op).Threw?
    ensures Tore(s, op.h, TryRead(s, op).next)
    ensures !(BuffersConserved(s) && HasRoom(s, 0))
  {
    TryReadStream(s, op);
    if CountsAgree(s.history.delivered, s.history.completed) {
      StreamDeliveryAgrees(s, op);
    }
    if NeverEmptied(s.kcp.queue, s.history.emptied) {
      TryReadLeavesFull(s, op);
    }
    if BuffersConserved(s) && HasRoom(s, 0) {
      RoomIsEnough(s, op);
    }
  }

  predicate Tore(s: Conn, h: Handler, t: Conn) {
    && t == s.(kcp := s.kcp.(queue := t.kcp.queue), bufs := [], thrown := true,
               history := s.history.(delivered := t.history.delivered, dropped := Some(h)))
    && Stream(t) == Stream(s)
    && (CountsAgree(s.history.delivered, s.history.completed)
        ==> CountsAgree(t.history.delivered, t.history.completed))
    && (NeverEmptied(s.kcp.queue, s.history.emptied) ==> NeverEmptied(t.kcp.queue, t.history.emptied))
  }

  lemma {:induction false} ThrowKeeps(s: Conn, t: Conn)
    requires !s.thrown && s.readOp.Some?
    requires Tore(s.(readOp := None), s.readOp.value.h, t)
    requires !(BuffersConserved(s) && HasRoom(s, 0))
    ensures Keeps(s, t)
  {
    if s.history.dropped.None? {
      forall h: Handler ensures Missing(t, h) == Missing(s, h) {
      }
    }
  }

  // ---------------------------------------------------------------- re-entrant completions

  lemma {:induction false} RunScriptKeeps(s: Conn, script: seq<Action>)
    requires s.thrown || ValidOps(s)
    ensures var r := RunScript(s, script);
            Keeps(s, r) && (s.state == Closed ==> Frozen(s, r)) && Calm(s, r)
    decreases Openness(s), 1, |script|
  {
    if !s.thrown && script != [] {
      var m := Perform(s, script[0]);
      PerformKeeps(s, script[0]);
      RunScriptKeeps(m, script[1..]);
      KeepsTransitive(s, m, RunScript(s, script));
    }
  }

  /** On a closed connection user code changes no operation slot, and KCP not at all. */
  predicate Frozen(s: Conn, r: Conn) {
    r.readOp == s.readOp && r.writeOp == s.writeOp && r.kcp == s.kcp && r.nextTick == s.nextTick
  }

  /** Unless it closes an open connection, user code never runs a drain loop, so nothing throws. */
  predicate Calm(s: Conn, r: Conn) {
    s.state != Opened ==> r.thrown == s.thrown
  }

  lemma {:induction false} PerformKeeps(s: Conn, a: Action)
    requires !s.thrown && ValidOps(s)
    ensures Keeps(s, Perform(s, a)) && (s.state == Closed ==> Frozen(s, Perform(s, a)))
    ensures Calm(s, Perform(s, a))
    decreases Openness(s), 0, 1
  {
    match a
    case ReadSome(capacity, h) => InitiateReadKeeps(s, SomeOp(h, capacity));
    case Read(buf, need, h) => if buf < |s.bufs| { InitiateReadKeeps(s, StreamOp(h, buf, need)); }
    case Write(result, h) => InitiateWriteKeeps(s, result, h);
    case Consume(buf, count) => if buf < |s.bufs| { ConsumeKeeps(s, buf, count); }
    case Close(ec) => CloseKeeps(s, ec);
  }

  lemma {:induction false} CloseKeeps(s: Conn, ec: ErrorCode)
    requires !s.thrown && ValidOps(s)
    ensures Keeps(s, CloseConn(s, ec))
    ensures ec != NoError ==> !CloseConn(s, ec).thrown
    decreases Openness(s), 0, 0
  {
    if s.state == Opened {
      var m := Closing(s, ec);
      CheckReadKeeps(m, ec);
      ClosingKeeps(s, ec);
    }
  }

  lemma {:induction false} ClosingKeeps(s: Conn, ec: ErrorCode)
    requires !s.thrown && s.state == Opened
    requires var m := Closing(s, ec);
             Keeps(m, CheckRead(m, ec)) && Checked(m, CheckRead(m, ec), ec) && CalmCheck(m, CheckRead(m, ec), ec)
    ensures Keeps(s, CloseConn(s, ec))
  {
    var m := Closing(s, ec);
    var t := CheckRead(m, ec);
    var r := CloseConn(s, ec);
    assert forall h: Handler :: Missing(m, h) == Missing(s, h);
    assert forall h: Handler :: Missing(r, h) == Missing(t, h);
  }

  /** What a check leaves behind. */
  predicate Checked(s: Conn, r: Conn, ec: ErrorCode) {
    !r.thrown ==>
      && ReadAwake(r)
      && WriteBlocked(r)
      && (ec != NoError && s.state == Closed ==> r.readOp.None? && r.writeOp.None?)
  }

  predicate CalmCheck(s: Conn, r: Conn, ec: ErrorCode) {
    ec != NoError && s.state != Opened && !s.thrown ==> !r.thrown
  }

  lemma {:induction false} CheckReadKeeps(s: Conn, ec: ErrorCode)
    requires !s.thrown && ValidOps(s) && Apt(s, ec)
    ensures Keeps(s, CheckRead(s, ec)) && Checked(s, CheckRead(s, ec), ec)
    ensures CalmCheck(s, CheckRead(s, ec), ec)
    decreases Openness(s), 5, 0
  {
    var m := SettleRead(s, ec);
    SettleReadKeeps(s, ec);
    CheckWriteKeeps(m, ec);
    KeepsTransitive(s, m, CheckRead(s, ec));
  }

  lemma {:induction false} SettleReadKeeps(s: Conn, ec: ErrorCode)
    requires !s.thrown && ValidOps(s) && Apt(s, ec)
    ensures var m := SettleRead(s, ec);
            && Keeps(s, m)
            && (!m.thrown ==> ReadAwake(m))
            && (!m.thrown && ec != NoError && s.state == Closed ==> m.readOp.None?)
            && (Unfinished(s, ec) ==> !m.thrown && m.readOp == s.readOp)
            && CalmCheck(s, m, ec)
    decreases Openness(s), 4, 0
  {
    if s.readOp.Some? {
      if ec != NoError {
        var op := s.readOp.value;
        var t := s.(readOp := None);
        FailReadKeeps(s, ec);
        RunHandlerKeeps(s, Log(t, ReadDone(op, ec, 0)), op.h.script);
        assert CompleteRead(t, op, ec) == (true, RunScript(Log(t, ReadDone(op, ec, 0)), op.h.script));
      } else {
        TriedReadKeeps(s);
      }
    }
  }

  lemma {:induction false} TriedReadKeeps(s: Conn)
    requires !s.thrown && ValidOps(s) && s.readOp.Some?
    ensures var m := SettleRead(s, NoError);
            && Keeps(s, m)
            && (!m.thrown ==> ReadAwake(m))
            && (Unfinished(s, NoError) ==> !m.thrown && m.readOp == s.readOp)
    decreases Openness(s), 3, 0
  {
    var op := s.readOp.value;
    var t := s.(readOp := None);
    var a := TryRead(t, op);
    if a.Threw? {
      TryReadThrows(t, op);
      ThrowKeeps(s, a.next);
    } else {
      TryReadAttempts(t, op);
      if a.NotYet? {
        if CountsAgree(s.history.delivered, s.history.completed) {
          FailedAttemptAgrees(t, op);
        }
        ParkReadKeeps(s, a.next);
      } else {
        FinishReadKeeps(s, a.next, a.n);
        RunHandlerKeeps(s, Log(a.next, ReadDone(op, NoError, a.n)), op.h.script);
        assert CompleteRead(t, op, NoError) == (true, RunScript(Log(a.next, ReadDone(op, NoError, a.n)), op.h.script));
      }
    }
  }

  /** The pending read finds too little queued, so it goes back to its slot. */
  predicate Unfinished(s: Conn, ec: ErrorCode)
    requires ValidOps(s)
  {
    ec == NoError && s.readOp.Some? && TryRead(s.(readOp := None), s.readOp.value).NotYet?
  }

  lemma {:induction false} RunHandlerKeeps(s: Conn, m: Conn, script: seq<Action>)
    requires !m.thrown && ValidOps(m) && Keeps(s, m)
    ensures Keeps(s, RunScript(m, script))
    ensures m.state == Closed ==> Frozen(m, RunScript(m, script))
    ensures Calm(m, RunScript(m, script))
    ensures !RunScript(m, script).thrown && ReadAwake(m) ==> ReadAwake(RunScript(m, script))
    decreases Openness(m), 2, 0
  {
    RunScriptKeeps(m, script);
    KeepsTransitive(s, m, RunScript(m, script));
  }

  lemma {:induction false} CheckWriteKeeps(s: Conn, ec: ErrorCode)
    requires (s.thrown || ValidOps(s)) && Apt(s, ec)
    ensures var r := CheckWrite(s, ec);
            && Keeps(s, r)
            && (!r.thrown ==> WriteBlocked(r))
            && (!r.thrown && ec != NoError && s.state == Closed ==> r.writeOp.None?)
            && Calm(s, r)
    decreases Openness(s), 3, 0
  {
    if !s.thrown && s.writeOp.Some? && (ec != NoError || s.kcp.waitsnd <= IDLE_SEND_PACKET_COUNT) {
      var h := s.writeOp.value;
      var m := Log(s.(writeOp := None), Completion(h, ec, 0, OfWrite));
      FinishWriteKeeps(s, ec);
      RunScriptKeeps(m, h.script);
      KeepsTransitive(s, m, RunScript(m, h.script));
    }
  }

  // ---------------------------------------------------------------- outermost steps

  function Rank(s: State): nat {
    match s
    case Idle => 0
    case Opened => 1
    case Closed => 2
  }

  /** The segments a step brings in. */
  function Incoming(e: Event): seq<Segment> {
    if e.Receive? then e.input.segments else []
  }

  /** What an outermost step makes of a settled connection, by the bytes KCP accepts in it. */
  ghost predicate StepKeeps(s: Conn, e: Event, r: Conn) {
    && r.id == s.id
    && (!e.Receive? ==> r.nowTick == s.nowTick)
    && Stream(r) == Stream(s) + AcceptedBy(e)
    && Rank(s.state) <= Rank(r.state)
    && (s.state == Closed ==> r.history.reason == s.history.reason)
    && s.history.disconnects <= r.history.disconnects
    && (NeverEmptied(s.kcp.queue, s.history.emptied) && NoneEmpty(Incoming(e))
        ==> NeverEmptied(r.kcp.queue, r.history.emptied))
    && if r.thrown then Torn(r) && !HasRoom(s, |AcceptedBy(e)|) else Settled(r) && (e.AddBuffer? || SameLimits(s, r))
  }

  lemma {:induction false} KeepsSteps(s: Conn, e: Event, r: Conn)
    requires !s.thrown && Settled(s) && Keeps(s, r) && AcceptedBy(e) == []
    ensures StepKeeps(s, e, r)
  {
    assert Stream(s) + [] == Stream(s);
  }

  /** Every step of a connection, whatever its handlers do inside it. */
  lemma {:induction false} StepIsStable(s: Conn, e: Event)
    requires Stable(s) && !s.thrown && !Inert(s, e)
    ensures StepKeeps(s, e, Step(s, e))
    ensures !Step(s, e).thrown ==> ClientRuns(Step(s, e))
  {
    match e
    case UserCall(a) =>
      PerformKeeps(s, a);
      KeepsSteps(s, e, Perform(s, a));
    case RunPosted(i) =>
      if i < |s.posted| {
        RunTaskIsStable(s, i, e);
      } else {
        QuietIsStable(s, s, e);
      }
    case Receive(data, t, input) =>
      if s.id.isServer {
        OnReceiveIsStable(s, data, t, input);
      } else {
        ClientReceiveIsStable(s, data, t, input);
      }
    case ReceiveFailed(ec) => ReceiveFailedIsStable(s, ec);
    case Update(now, next) => QuietIsStable(s, UpdateConn(s, now, next), e);
    case Timer(now, next) => TimerIsStable(s, now, next);
    case RunClient => QuietIsStable(s, Step(s, e), e);
    case AddBuffer(limit) => AddBufferIsStable(s, limit, e);
  }

  /** Steps that touch only clocks and sockets, and move forward in the life cycle short of closing. */
  lemma {:induction false} QuietIsStable(s: Conn, r: Conn, e: Event)
    requires Settled(s) && !s.thrown && AcceptedBy(e) == []
    requires r == s.(state := r.state, nextTick := r.nextTick, nowTick := r.nowTick, io := r.io,
                     kcp := s.kcp.(touched := r.kcp.touched))
    requires r.state == s.state || (s.state == Idle && r.state == Opened)
    requires r.nowTick == s.nowTick || e.Receive?
    requires KcpAwake(r)
    ensures StepKeeps(s, e, r)
  {
    assert forall h: Handler :: Missing(r, h) == Missing(s, h);
    assert Stream(s) + [] == Stream(s);
  }

  lemma {:induction false} ClientReceiveIsStable(s: Conn, data: seq<byte>, t: int, input: InputResult)
    requires Stable(s) && !s.thrown && !s.id.isServer && s.state != Idle
    ensures var r := OnClientReceive(s, data, t, input);
            StepKeeps(s, Receive(data, t, input), r) && (!r.thrown ==> ClientRuns(r))
  {
    var u := s.(io := s.io.(receiving := false));
    QuietIsStable(s, u, RunClient);
    OnReceiveIsStable(u, data, t, input);
    var m := OnReceive(u, data, t, input);
    if !m.thrown {
      QuietIsStable(m, OnClientReceive(s, data, t, input), RunClient);
    }
  }

  lemma {:induction false} ReceiveFailedIsStable(s: Conn, ec: ErrorCode)
    requires Stable(s) && !s.thrown && !Inert(s, ReceiveFailed(ec))
    ensures var r := Step(s, ReceiveFailed(ec));
            StepKeeps(s, ReceiveFailed(ec), r) && (!r.thrown ==> ClientRuns(r))
  {
    var u := if s.id.isServer then s else s.(io := s.io.(receiving := false));
    QuietIsStable(s, u, RunClient);
    CloseKeeps(u, ec);
    KeepsSteps(u, ReceiveFailed(ec), CloseConn(u, ec));
  }

  lemma {:induction false} TimerIsStable(s: Conn, now: int, next: int)
    requires Stable(s) && !s.thrown && !Inert(s, Timer(now, next))
    ensures var r := Step(s, Timer(now, next));
            StepKeeps(s, Timer(now, next), r) && (!r.thrown ==> ClientRuns(r))
  {
    var e := Timer(now, next);
    if s.id.isServer {
      QuietIsStable(s, s, e);
    } else {
      var u := UpdateConn(s.(io := s.io.(ticking := false)), now, next);
      QuietIsStable(s, u, e);
      if now - u.nowTick > TIMEOUT_DURATION {
        CloseKeeps(u, TimedOut);
        KeepsSteps(u, e, CloseConn(u, TimedOut));
      } else {
        QuietIsStable(s, Step(s, e), e);
      }
    }
  }

  lemma {:induction false} AddBufferIsStable(s: Conn, limit: nat, e: Event)
    requires Settled(s) && !s.thrown && e == AddBuffer(limit)
    ensures StepKeeps(s, e, s.(bufs := s.bufs + [Buffer([], limit)]))
  {
    var r := s.(bufs := s.bufs + [Buffer([], limit)]);
    assert forall h: Handler :: Missing(r, h) == Missing(s, h);
    assert Stream(s) + [] == Stream(s);
    AddBufferBalances(s.history.delivered, s.history.removed, s.bufs, Buffer([], limit));
  }

  lemma {:induction false} AddBufferBalances(ds: seq<Delivery>, rs: seq<Removal>, bufs: seq<Buffer>, b: Buffer)
    requires Balanced(ds, rs, bufs) && b.data == []
    ensures Balanced(ds, rs, bufs + [b])
  {
    NothingFor(ds, rs, |bufs|);
  }

  lemma {:induction false} NothingFor(ds: seq<Delivery>, rs: seq<Removal>, n: nat)
    requires forall d <- ds | d.ToStream? :: d.buf < n
    requires forall r <- rs :: r.buf < n
    ensures DeliveredTo(ds, n) == [] && RemovedFrom(rs, n) == []
    decreases |ds| + |rs|
  {
    if ds != [] {
      assert ds[|ds| - 1] in ds;
      NothingFor(ds[..|ds| - 1], rs, n);
    } else if rs != [] {
      assert rs[|rs| - 1] in rs;
      NothingFor(ds, rs[..|rs| - 1], n);
    }
  }

  lemma {:induction false} RunTaskIsStable(s: Conn, i: nat, e: Event)
    requires Settled(s) && !s.thrown && i < |s.posted| && e == RunPosted(i)
    ensures StepKeeps(s, e, RunTask(s, i)) && (!RunTask(s, i).thrown ==> Closes(s, RunTask(s, i)))
  {
    match s.posted[i]
    case CheckTask => CheckTaskIsStable(s, i, e);
    case HandlerTask(h, ec) =>
      TaskLogged(s, i, h, ec);
      var m := Log(Dequeued(s, i), Completion(h, ec, 0, OfPost));
      RunScriptKeeps(m, h.script);
      KeepsSteps(m, e, RunTask(s, i));
  }

  function Dequeued(s: Conn, i: nat): Conn
    requires i < |s.posted|
  {
    s.(posted := s.posted[..i] + s.posted[i + 1..])
  }

  lemma {:induction false} CheckTaskIsStable(s: Conn, i: nat, e: Event)
    requires Settled(s) && !s.thrown && i < |s.posted| && e == RunPosted(i) && s.posted[i] == CheckTask
    ensures StepKeeps(s, e, RunTask(s, i)) && (!RunTask(s, i).thrown ==> Closes(s, RunTask(s, i)))
  {
    var t := Dequeued(s, i);
    forall h: Handler ensures Missing(t, h) == Missing(s, h) {
      PostedRemove(s.posted, i, h);
    }
    CheckReadKeeps(t, NoError);
    assert Stream(s) + [] == Stream(s);
  }

  /** The posted use of the handler becomes a completed one, and nothing else changes. */
  lemma {:induction false} TaskLogged(s: Conn, i: nat, x: Handler, ec: ErrorCode)
    requires Settled(s) && !s.thrown && i < |s.posted| && s.posted[i] == HandlerTask(x, ec)
    ensures var m := Log(Dequeued(s, i), Completion(x, ec, 0, OfPost)); Settled(m) && Stream(m) == Stream(s)
  {
    var c := Completion(x, ec, 0, OfPost);
    LogAgrees(s.history.delivered, s.history.completed, c);
    TaskConserved(s, i, c);
    CheckStaysPosted(s.posted, i);
  }

  lemma {:induction false} TaskConserved(s: Conn, i: nat, c: Completion)
    requires HandlersConserved(s) && i < |s.posted| && s.posted[i] == HandlerTask(c.h, c.ec)
    ensures HandlersConserved(Log(Dequeued(s, i), c))
  {
    forall h: Handler ensures Missing(Log(Dequeued(s, i), c), h) == Missing(s, h) {
      PostedRemove(s.posted, i, h);
      LogAdds(Dequeued(s, i), c, h);
    }
  }

  lemma {:induction false} CheckStaysPosted(p: seq<Task>, i: nat)
    requires i < |p| && p[i] != CheckTask
    ensures CheckTask in p[..i] + p[i + 1..] <==> CheckTask in p
  {
    assert p == p[..i] + [p[i]] + p[i + 1..];
  }

  lemma {:induction false} OnReceiveIsStable(s: Conn, data: seq<byte>, t: int, input: InputResult)
    requires Settled(s) && !s.thrown
    ensures var r := OnReceive(s, data, t, input);
            StepKeeps(s, Receive(data, t, input), r) && (!r.thrown ==> Closes(s, r))
  {
    var e := Receive(data, t, input);
    if |data| < KCP_HEADER_SIZE {
      QuietIsStable(s, s, e);
    } else {
      var u := s.(state := if s.state == Idle then Opened else s.state, nowTick := t);
      QuietIsStable(s, u, Receive([], t, InputResult([], 0)));
      if data[0] == OPCODE_DATA {
        InputIsStable(u, e);
        OpenedFirst(s, u, e, OnReceive(s, data, t, input));
      } else if data[0] == OPCODE_DISCONNECT {
        DisconnectIsStable(u, e);
        OpenedFirst(s, u, e, OnReceive(s, data, t, input));
      } else {
        QuietIsStable(s, u, e);
      }
    }
  }

  /** What holds of the rest of a receive holds of the whole. */
  lemma {:induction false} OpenedFirst(s: Conn, u: Conn, e: Event, r: Conn)
    requires u == s.(state := if s.state == Idle then Opened else s.state, nowTick := u.nowTick)
    requires e.Receive? && StepKeeps(u, e, r) && (!r.thrown ==> Closes(u, r))
    ensures StepKeeps(s, e, r) && (!r.thrown ==> Closes(s, r))
  {
    assert Stream(u) == Stream(s);
  }

  lemma {:induction false} DisconnectIsStable(u: Conn, e: Event)
    requires Settled(u) && !u.thrown && e.Receive? && AcceptedBy(e) == []
    ensures var r := CloseConn(u, Eof); StepKeeps(u, e, r) && (!r.thrown ==> Closes(u, r))
  {
    CloseKeeps(u, Eof);
    KeepsSteps(u, e, CloseConn(u, Eof));
  }

  lemma {:induction false} InputIsStable(u: Conn, e: Event)
    requires Settled(u) && !u.thrown
    requires e.Receive? && |e.data| >= KCP_HEADER_SIZE && e.data[0] == OPCODE_DATA
    ensures var r := CheckRead(u.(kcp := InputKcp(u.kcp, e.input), nextTick := 0), NoError);
            StepKeeps(u, e, r) && (!r.thrown ==> Closes(u, r))
  {
    var v := u.(kcp := InputKcp(u.kcp, e.input), nextTick := 0);
    InputIsSound(u, v, e);
    CheckReadKeeps(v, NoError);
  }

  lemma {:induction false} InputIsSound(u: Conn, v: Conn, e: Event)
    requires Settled(u)
    requires e.Receive? && |e.data| >= KCP_HEADER_SIZE && e.data[0] == OPCODE_DATA
    requires v == u.(kcp := InputKcp(u.kcp, e.input), nextTick := 0)
    ensures Sound(v) && Drained(v) && Stream(v) == Stream(u) + AcceptedBy(e)
  {
    QueueBytesAppend(u.kcp.queue, e.input.segments);
    Associate(DeliveredBytes(u.history.delivered), QueueBytes(u.kcp.queue), AcceptedBy(e));
    assert forall h: Handler :: Missing(v, h) == Missing(u, h);
  }

  // ---------------------------------------------------------------- whole runs

  /** The bytes KCP accepts over a run: those of the steps the connection takes part in. */
  function AcceptedAlong(s: Conn, events: seq<Event>): seq<byte> {
    if events == [] then []
    else
      var n := |events| - 1;
      AcceptedAlong(s, events[..n]) + if Inert(Run(s, events[..n]), events[n]) then [] else AcceptedBy(events[n])
  }

  /** What holds between any two steps of any run. */
  ghost predicate Lives(s: Conn) {
    if s.thrown then Torn(s) else Stable(s)
  }

  lemma {:induction false} FreshIsStable(id: Identity, now: int)
    ensures Stable(NewConn(id, now)) && Stream(NewConn(id, now)) == []
  {
  }

  lemma {:induction false} RunIsStable(s: Conn, events: seq<Event>)
    requires Lives(s)
    ensures RunKeeps(s, AcceptedAlong(s, events), Run(s, events))
    decreases |events|
  {
    if events == [] {
      assert Stream(s) + [] == Stream(s);
    } else {
      var n := |events| - 1;
      RunIsStable(s, events[..n]);
      StepExtendsRun(s, AcceptedAlong(s, events[..n]), Run(s, events[..n]), events[n]);
    }
  }

  /** What a run in which KCP accepts these bytes makes of a connection. */
  ghost predicate RunKeeps(s: Conn, accepted: seq<byte>, r: Conn) {
    && Lives(r)
    && r.id == s.id
    && (s.thrown ==> r == s)
    && Stream(r) == Stream(s) + accepted
    && Rank(s.state) <= Rank(r.state)
    && (s.state == Closed ==> r.history.reason == s.history.reason)
    && s.history.disconnects <= r.history.disconnects
  }

  lemma {:induction false} StepExtendsRun(s: Conn, accepted: seq<byte>, m: Conn, e: Event)
    requires RunKeeps(s, accepted, m)
    ensures RunKeeps(s, accepted + (if Inert(m, e) then [] else AcceptedBy(e)), Step(m, e))
  {
    if Inert(m, e) {
      assert accepted + [] == accepted;
    } else {
      StepIsStable(m, e);
      Associate(Stream(s), accepted, AcceptedBy(e));
    }
  }
}
