/** include/kcp.hpp's connection, with its fields updated in place, refining ConnectionSpec. */
module ConnectionModel {
  import opened Common
  import opened KcpQueue
  import opened KcpModel
  import opened ConnectionSpec
  import opened StreambufModel

  class Connection {
    const id: Identity
    const kcp: KcpControl
    var state: State
    var nextTick: int
    var nowTick: int
    var readOp: Option<ReadOp>
    var writeOp: Option<Handler>
    var posted: seq<Task>
    var bufs: seq<Streambuf>
    var thrown: bool
    var io: ClientIo

    /** The connection as a value; Valid ties every field to it. */
    ghost var model: Conn

    ghost predicate Valid()
      reads this, kcp, bufs
    {
      && (readOp.Some? && readOp.value.StreamOp? ==> readOp.value.buf < |bufs|)
      && kcp.Valid()
      && model == Conn(id, state, nextTick, nowTick, kcp.View(), readOp, writeOp, posted,
                       model.bufs, thrown, io, model.history)
      && Separate(bufs)
      && if thrown then model.bufs == [] else Views(model.bufs, bufs)
    }

    static ghost predicate Separate(bufs: seq<Streambuf>)
      reads bufs
    {
      && (forall i | 0 <= i < |bufs| :: bufs[i].Valid())
      && (forall i, j | 0 <= i < j < |bufs| :: bufs[i] != bufs[j])
    }

    static ghost predicate Views(views: seq<Buffer>, bufs: seq<Streambuf>)
      reads bufs
    {
      && |views| == |bufs|
      && forall i | 0 <= i < |bufs| :: views[i] == Buffer(bufs[i].Contents(), bufs[i].maxSize)
    }

    constructor (id: Identity, now: int)
      ensures Valid() && fresh(kcp) && bufs == []
      ensures model == NewConn(id, now)
    {
      this.id := id;
      kcp := new KcpControl();
      state, nextTick, nowTick := Idle, 0, now;
      readOp, writeOp, posted, bufs, thrown := None, None, [], [], false;
      io := NOT_STARTED;
      model := NewConn(id, now);
    }

    // -------------------------------------------------------------- initiating operations

    method InitiateAsyncRead(op: ReadOp)
      requires Valid() && !thrown
      requires op.StreamOp? ==> op.buf < |bufs|
      modifies this
      ensures Valid() && bufs == old(bufs)
      ensures model == InitiateRead(old(model), op)
    {
      if readOp.Some? || state == Closed {
        posted := posted + [HandlerTask(op.h, if state == Closed then OperationAborted else InProgress)];
      } else {
        readOp := Some(op);
        posted := posted + [CheckTask];
      }
      model := InitiateRead(model, op);
    }

    method InitiateAsyncWrite(result: SendResult, h: Handler)
      requires Valid() && !thrown
      modifies this, kcp
      ensures Valid() && bufs == old(bufs)
      ensures model == InitiateWrite(old(model), result, h)
    {
      model := InitiateWrite(model, result, h);
      if writeOp.Some? || state == Closed {
        posted := posted + [HandlerTask(h, if state == Closed then OperationAborted else InProgress)];
      } else {
        SendNow(result, h);
      }
    }

    method SendNow(result: SendResult, h: Handler)
      requires writeOp.None? && kcp.Valid()
      modifies this`nextTick, this`posted, this`writeOp, kcp
      ensures nextTick == 0 && kcp.Valid()
      ensures kcp.View() == Kcp(old(kcp.View().queue),
                                old(kcp.waitsnd) + if result.Queued? then result.packets else 0, true)
      ensures posted == old(posted) + if result.Rejected? then [HandlerTask(h, MessageSize)]
                                      else if kcp.waitsnd <= IDLE_SEND_PACKET_COUNT then [HandlerTask(h, NoError)]
                                      else []
      ensures writeOp == if result.Queued? && kcp.waitsnd > IDLE_SEND_PACKET_COUNT then Some(h) else None
    {
      nextTick := 0;
      var n := kcp.Send(result);
      if n < 0 {
        posted := posted + [HandlerTask(h, MessageSize)];
        return;
      }
      if kcp.waitsnd <= IDLE_SEND_PACKET_COUNT {
        posted := posted + [HandlerTask(h, NoError)];
      } else {
        writeOp := Some(h);
      }
    }

    // -------------------------------------------------------------- completing operations

    /** read_op's loop over the real streambuf; false when prepare throws. */
    method DrainStream(sb: Streambuf) returns (ok: bool, ghost emptied: bool)
      requires sb.Valid() && kcp.Valid()
      modifies kcp, sb
      ensures sb.Valid() && kcp.Valid()
      ensures var d := Drain(old(kcp.View().queue), old(sb.Contents()), sb.maxSize);
              && ok == d.ok && emptied == d.emptied
              && kcp.View() == old(kcp.View()).(queue := d.queue)
              && (ok ==> sb.Contents() == d.data)
    {
      ghost var d := Drain(kcp.View().queue, sb.Contents(), sb.maxSize);
      var more := true;
      ok, emptied := true, false;
      while more
        invariant sb.Valid() && kcp.Valid()
        invariant more ==> ok && d == Drain(kcp.View().queue, sb.Contents(), sb.maxSize)
        invariant !more ==> ok == d.ok && emptied == d.emptied && kcp.View().queue == d.queue
        invariant !more && ok ==> sb.Contents() == d.data
        invariant kcp.View() == old(kcp.View()).(queue := kcp.View().queue)
        decreases more, |kcp.View().queue|
      {
        ok, more, emptied := DrainOnce(sb);
      }
    }

    /** One pass: prepare, receive, and commit what has been received. */
    method DrainOnce(sb: Streambuf) returns (ok: bool, more: bool, ghost emptied: bool)
      requires sb.Valid() && kcp.Valid()
      modifies kcp, sb
      ensures sb.Valid() && kcp.Valid()
      ensures ok <==> |old(sb.Contents())| + READ_CHUNK <= sb.maxSize
      ensures !ok ==> !more && !emptied && kcp.View() == old(kcp.View())
      ensures var r := KcpQueue.Recv(old(kcp.View().queue), READ_CHUNK);
              ok ==>
                && (more <==> r.n > 0) && (emptied <==> r.n == 0)
                && kcp.View() == old(kcp.View()).(queue := r.rest)
                && sb.Contents() == if more then old(sb.Contents()) + r.data else old(sb.Contents())
    {
      more, emptied := false, false;
      ok := sb.Prepare(READ_CHUNK);
      if !ok {
        return;
      }
      var n, data := kcp.Recv(READ_CHUNK);
      if n > 0 {
        sb.Write(data);
        more := true;
      }
      emptied := n == 0;
    }

    /** do_complete of read_some_op and read_op; true when the operation is over and its handler has run. */
    method CompleteReadOp(op: ReadOp, ec: ErrorCode) returns (finished: bool)
      requires Valid() && !thrown && readOp.None?
      requires op.StreamOp? ==> op.buf < |bufs|
      modifies this, kcp, bufs
      ensures Valid() && bufs == old(bufs)
      ensures (finished, model) == CompleteRead(old(model), op, ec)
      decreases Openness(model), 3, 0
    {
      if ec != NoError {
        RunHandler(op.h, ec, 0, OfRead(op));
        return true;
      }
      var n;
      finished, n := Attempt(op);
      if finished {
        RunHandler(op.h, NoError, n, OfRead(op));
      }
    }

    /** The part of do_complete before the handler: one receive, or the drain loop. */
    method Attempt(op: ReadOp) returns (done: bool, n: nat)
      requires Valid() && !thrown && readOp.None?
      requires op.StreamOp? ==> op.buf < |bufs|
      modifies this, kcp, bufs
      ensures Valid() && bufs == old(bufs)
      ensures match TryRead(old(model), op)
              case Done(u, m) => done && n == m && model == u
              case NotYet(u) => !done && model == u
              case Threw(u) => !done && model == u
    {
      if op.StreamOp? {
        done := AttemptStream(op);
        n := op.need;
        return;
      }
      model := TryRead(model, op).next;
      var received, data := kcp.Recv(op.capacity);
      done, n := received > 0, 0;
      if done {
        n := received;
      }
    }

    method AttemptStream(op: ReadOp) returns (done: bool)
      requires Valid() && !thrown && readOp.None?
      requires op.StreamOp? && op.buf < |bufs|
      modifies this, kcp, bufs
      ensures Valid() && bufs == old(bufs)
      ensures model == TryRead(old(model), op).next
      ensures done <==> TryRead(old(model), op).Done?
    {
      var sb := bufs[op.buf];
      var ok, emptied := DrainStream(sb);
      model := TryRead(model, op).next;
      if ok {
        var size := sb.Size();
        done := size >= op.need;
      } else {
        thrown := true;
        done := false;
      }
    }

    method RunHandler(h: Handler, ec: ErrorCode, n: nat, ghost cause: Cause)
      requires Valid() && !thrown
      modifies this, kcp, bufs
      ensures Valid() && bufs == old(bufs)
      ensures model == Complete(old(model), Completion(h, ec, n, cause))
      decreases Openness(model), 2, 0
    {
      model := Log(model, Completion(h, ec, n, cause));
      RunActions(h.script);
    }

    method RunActions(script: seq<Action>)
      requires Valid() && !thrown
      modifies this, kcp, bufs
      ensures Valid() && bufs == old(bufs)
      ensures model == RunScript(old(model), script)
      decreases Openness(model), 1, |script|
    {
      if script != [] {
        PerformAction(script[0]);
        if !thrown {
          RunActions(script[1..]);
        }
      }
    }

    /** One call made by user code. */
    method PerformAction(a: Action)
      requires Valid() && !thrown
      modifies this, kcp, bufs
      ensures Valid() && bufs == old(bufs)
      ensures model == Perform(old(model), a)
      decreases Openness(model), 0, 1
    {
      match a
      case ReadSome(capacity, h) => InitiateAsyncRead(SomeOp(h, capacity));
      case Read(buf, need, h) => if buf < |bufs| { InitiateAsyncRead(StreamOp(h, buf, need)); }
      case Write(result, h) => InitiateAsyncWrite(result, h);
      case Consume(buf, count) => if buf < |bufs| { ConsumeFrom(buf, count); }
      case Close(ec) => CloseWith(ec);
    }

    method ConsumeFrom(buf: nat, count: nat)
      requires Valid() && !thrown && buf < |bufs|
      modifies this`model, bufs[buf]
      ensures Valid()
      ensures model == ConsumeBuffer(old(model), buf, count)
    {
      var sb := bufs[buf];
      ghost var data := model.bufs[buf].data;
      assert sb.Contents() == data;
      sb.Consume(count);
      assert sb.Contents() == data[Min(count, |data|)..];
      model := ConsumeBuffer(model, buf, count);
    }

    method CloseWith(ec: ErrorCode)
      requires Valid() && !thrown
      modifies this, kcp, bufs
      ensures Valid() && bufs == old(bufs)
      ensures model == CloseConn(old(model), ec)
      decreases Openness(model), 0, 0
    {
      if state != Opened {
        return;
      }
      state := Closed;
      model := Closing(model, ec);
      CheckReadOp(ec);
      if !thrown {
        Disconnect();
      }
    }

    /** The frame goes out; a client closes its socket and cancels its timer. */
    method Disconnect()
      requires Valid() && !thrown
      modifies this`io, this`model
      ensures Valid()
      ensures model == Disconnected(old(model))
    {
      if !id.isServer {
        io := STOPPED;
      }
      model := Disconnected(model);
    }

    method CheckReadOp(ec: ErrorCode)
      requires Valid() && !thrown
      modifies this, kcp, bufs
      ensures Valid() && bufs == old(bufs)
      ensures model == CheckRead(old(model), ec)
      decreases Openness(model), 5, 0
    {
      SettleReadOp(ec);
      if !thrown {
        CheckWriteOp(ec);
      }
    }

    /** The operation leaves its slot before it is tried, so that its handler may start another. */
    method SettleReadOp(ec: ErrorCode)
      requires Valid() && !thrown
      modifies this, kcp, bufs
      ensures Valid() && bufs == old(bufs)
      ensures model == SettleRead(old(model), ec)
      decreases Openness(model), 4, 0
    {
      if readOp.Some? {
        var op := readOp.value;
        readOp := None;
        model := model.(readOp := None);
        var finished := CompleteReadOp(op, ec);
        if !finished && !thrown {
          readOp := Some(op);
          model := model.(readOp := Some(op));
        }
      }
    }

    method CheckWriteOp(ec: ErrorCode)
      requires Valid() && !thrown
      modifies this, kcp, bufs
      ensures Valid() && bufs == old(bufs)
      ensures model == CheckWrite(old(model), ec)
      decreases Openness(model), 4, 0
    {
      if writeOp.Some? {
        var h := writeOp.value;
        writeOp := None;
        if ec != NoError || kcp.waitsnd <= IDLE_SEND_PACKET_COUNT {
          model := model.(writeOp := None);
          RunHandler(h, ec, 0, OfWrite);
        } else {
          writeOp := Some(h);
        }
      }
    }

    // -------------------------------------------------------------- outermost steps

    method OnReceive(data: seq<byte>, t: int, input: InputResult)
      requires Valid() && !thrown
      modifies this, kcp, bufs
      ensures Valid() && bufs == old(bufs)
      ensures model == ConnectionSpec.OnReceive(old(model), data, t, input)
    {
      if |data| < KCP_HEADER_SIZE {
        return;
      }
      if state == Idle {
        state := Opened;
      }
      nowTick := t;
      model := model.(state := state, nowTick := t);
      if data[0] == OPCODE_DATA {
        OnData(input);
      } else if data[0] == OPCODE_DISCONNECT {
        CloseWith(Eof);
      }
    }

    method OnData(input: InputResult)
      requires Valid() && !thrown
      modifies this, kcp, bufs
      ensures Valid() && bufs == old(bufs)
      ensures model == CheckRead(old(model).(kcp := InputKcp(old(model).kcp, input), nextTick := 0), NoError)
    {
      kcp.Input(input);
      nextTick := 0;
      model := model.(kcp := InputKcp(model.kcp, input), nextTick := 0);
      CheckReadOp(NoError);
    }

    /** `next` is what ikcp_check answers; the extra flush changes nothing seen here. */
    method Update(now: int, next: int) returns (lastReceive: int)
      requires Valid() && !thrown
      modifies this, kcp
      ensures Valid() && bufs == old(bufs) && !thrown
      ensures model == UpdateConn(old(model), now, next)
      ensures lastReceive == model.nowTick
    {
      if nextTick <= now {
        kcp.Update();
        nextTick := next;
      }
      model := UpdateConn(model, now, next);
      lastReceive := nowTick;
    }

    /** The handler of the client's own receive: a datagram, and the next receive unless closed. */
    method OnClientDatagram(data: seq<byte>, t: int, input: InputResult)
      requires Valid() && !thrown && !id.isServer
      modifies this, kcp, bufs
      ensures Valid() && bufs == old(bufs)
      ensures model == OnClientReceive(old(model), data, t, input)
    {
      io := io.(receiving := false);
      model := model.(io := io);
      OnReceive(data, t, input);
      if !thrown {
        io := io.(receiving := state != Closed);
        model := model.(io := io);
      }
    }

    /** The same handler, given an error. */
    method OnReceiveError(ec: ErrorCode)
      requires Valid() && !thrown && !id.isServer
      modifies this, kcp, bufs
      ensures Valid() && bufs == old(bufs)
      ensures model == CloseConn(old(model).(io := old(model).io.(receiving := false)), ec)
    {
      io := io.(receiving := false);
      model := model.(io := io);
      CloseWith(ec);
    }

    /** The handler of the client's own timer, which starts it again unless the peer has gone silent. */
    method OnTimer(now: int, next: int)
      requires Valid() && !thrown && !id.isServer
      modifies this, kcp, bufs
      ensures Valid() && bufs == old(bufs)
      ensures model == ConnectionSpec.OnTimer(old(model), now, next)
    {
      io := io.(ticking := false);
      model := model.(io := io);
      var t := Update(now, next);
      if now - t > TIMEOUT_DURATION {
        CloseWith(TimedOut);
      } else {
        io := io.(ticking := true);
        model := model.(io := io);
      }
    }

    method RunPostedTask(i: nat)
      requires Valid() && !thrown && i < |posted|
      modifies this, kcp, bufs
      ensures Valid() && bufs == old(bufs)
      ensures model == RunTask(old(model), i)
    {
      var task := posted[i];
      posted := posted[..i] + posted[i + 1..];
      model := model.(posted := posted);
      match task
      case CheckTask => CheckReadOp(NoError);
      case HandlerTask(h, ec) => RunHandler(h, ec, 0, OfPost);
    }

    /** Opens an idle client, begins its first receive and starts its timer. */
    method StartClient()
      requires Valid() && !thrown
      modifies this
      ensures Valid() && bufs == old(bufs)
      ensures model == Step(old(model), RunClient)
    {
      if !id.isServer && state == Idle {
        state := Opened;
        io := STARTED;
        model := model.(state := Opened, io := io);
      }
    }

    /** User code makes a streambuf it will read into. */
    method AddStreambuf(limit: nat)
      requires Valid() && !thrown
      modifies this
      ensures Valid() && |bufs| == |old(bufs)| + 1 && bufs[..|old(bufs)|] == old(bufs) && fresh(bufs[|old(bufs)|])
      ensures model == old(model).(bufs := old(model).bufs + [Buffer([], limit)])
    {
      var sb := new Streambuf(limit);
      bufs := bufs + [sb];
      model := model.(bufs := model.bufs + [Buffer([], limit)]);
      assert forall i | 0 <= i < |old(bufs)| :: bufs[i] == old(bufs)[i] && bufs[i] != sb;
    }
  }
}
