/**
 * The connection of include/kcp.hpp as a state machine over values. A completion handler is a
 * finite script of the calls it makes while it runs inline; a run in which a handler behaves in
 * some way is the run whose script says so, so "for every script" is "for every handler".
 */
module ConnectionSpec {
  import opened Common
  import opened KcpQueue

  const TIMEOUT_DURATION := 30 * 1000
  const IDLE_SEND_PACKET_COUNT := 128
  const KCP_HEADER_SIZE := 24
  const READ_CHUNK := 2048

  const OPCODE_HANDSHAKE: byte := 1
  const OPCODE_HANDSHAKE_RESPONSE: byte := 2
  const OPCODE_DATA: byte := 4
  const OPCODE_DISCONNECT: byte := 5
  const OPCODE_MAX: byte := 6

  datatype Endpoint = Endpoint(address: seq<byte>, port: nat)

  /** The four raw bytes of a conversation number, as memcpy moves them. */
  datatype Conv = Conv(b0: byte, b1: byte, b2: byte, b3: byte)

  datatype ErrorCode =
    | NoError
    | Eof
    | OperationAborted
    | InProgress
    | TimedOut
    | MessageSize
    | OtherError(value: int)

  datatype State = Idle | Opened | Closed

  datatype Handler = Handler(id: nat, script: seq<Action>)

  /** The calls user code makes on a connection or on a streambuf it reads into. */
  datatype Action =
    | ReadSome(capacity: nat, h: Handler)
    | Read(buf: nat, need: nat, h: Handler)
    | Write(result: SendResult, h: Handler)
    | Consume(buf: nat, count: nat)
    | Close(ec: ErrorCode)

  datatype ReadOp =
    | SomeOp(h: Handler, capacity: nat)
    | StreamOp(h: Handler, buf: nat, need: nat)

  /** Work posted to the executor. */
  datatype Task = CheckTask | HandlerTask(h: Handler, ec: ErrorCode)

  datatype Buffer = Buffer(data: seq<byte>, limit: nat)

  datatype Delivery = ToArray(h: Handler, data: seq<byte>) | ToStream(buf: nat, data: seq<byte>)

  datatype Removal = Removal(buf: nat, data: seq<byte>)

  /** What a completion answers: an operation taken out of its slot, or one answered by a posted task. */
  datatype Cause = OfRead(op: ReadOp) | OfWrite | OfPost

  datatype Completion = Completion(h: Handler, ec: ErrorCode, n: nat, cause: Cause)

  /**
   * What has happened so far; no branch of the connection looks at it. `dropped` is the handler of a
   * read that died with the exception a full streambuf threw, and `emptied` says that the last read put
   * back into its slot had taken an empty message off the queue and looked no further.
   */
  datatype History = History(
    initiated: seq<Handler>,
    completed: seq<Completion>,
    delivered: seq<Delivery>,
    removed: seq<Removal>,
    dropped: Option<Handler>,
    emptied: bool,
    reason: ErrorCode,
    disconnects: nat)

  /** A client's own receive loop, timer and socket; a server connection uses the acceptor's. */
  datatype ClientIo = ClientIo(receiving: bool, ticking: bool, socketOpen: bool)

  const NOT_STARTED := ClientIo(false, false, true)
  const STARTED := ClientIo(true, true, true)
  const STOPPED := ClientIo(false, false, false)

  datatype Identity = Identity(isServer: bool, conv: Conv, endpoint: Endpoint)

  datatype Conn = Conn(
    id: Identity,
    state: State,
    nextTick: int,
    nowTick: int,
    kcp: Kcp,
    readOp: Option<ReadOp>,
    writeOp: Option<Handler>,
    posted: seq<Task>,
    bufs: seq<Buffer>,
    thrown: bool,
    io: ClientIo,
    history: History)

  const EMPTY_HISTORY := History([], [], [], [], None, false, NoError, 0)

  function NewConn(id: Identity, now: int): Conn {
    Conn(id, Idle, 0, now, Kcp([], 0, false), None, None, [], [], false, NOT_STARTED, EMPTY_HISTORY)
  }

  // ---------------------------------------------------------------- one attempt of a read

  datatype Drained = Drained(queue: seq<Segment>, data: seq<byte>, ok: bool, emptied: bool)

  /** read_op's loop: prepare, receive, commit until a receive answers 0 or less; !ok when prepare throws. */
  function Drain(q: seq<Segment>, data: seq<byte>, limit: nat): Drained
    decreases |q|
  {
    if |data| + READ_CHUNK > limit then Drained(q, data, false, false)
    else
      var r := Recv(q, READ_CHUNK);
      if r.n > 0 then Drain(r.rest, data + r.data, limit) else Drained(r.rest, data, true, r.n == 0)
  }

  datatype Attempt = Done(next: Conn, n: nat) | NotYet(next: Conn) | Threw(next: Conn)

  predicate ValidOp(s: Conn, op: ReadOp) {
    op.StreamOp? ==> op.buf < |s.bufs|
  }

  function Deliver(s: Conn, d: Delivery): Conn {
    s.(history := s.history.(delivered := s.history.delivered + [d]))
  }

  /** The queue after a receive. */
  function WithQueue(s: Conn, queue: seq<Segment>): Conn {
    s.(kcp := s.kcp.(queue := queue))
  }

  function PutBack(s: Conn, emptied: bool): Conn {
    s.(history := s.history.(emptied := emptied))
  }

  function TryRead(s: Conn, op: ReadOp): Attempt
    requires ValidOp(s, op)
  {
    match op
    case SomeOp(h, capacity) =>
      var r := Recv(s.kcp.queue, capacity);
      if r.n > 0 then Done(WithQueue(Deliver(s, ToArray(h, r.data)), r.rest), r.n)
      else NotYet(PutBack(WithQueue(s, r.rest), r.n == 0))
    case StreamOp(h, buf, need) =>
      var b := s.bufs[buf];
      var d := Drain(s.kcp.queue, b.data, b.limit);
      DrainGrows(s.kcp.queue, b.data, b.limit);
      var t := WithQueue(Deliver(s, ToStream(buf, d.data[|b.data|..])), d.queue);
      if !d.ok then
        Threw(t.(thrown := true, bufs := [], history := t.history.(dropped := Some(h))))
      else
        var u := t.(bufs := t.bufs[buf := b.(data := d.data)]);
        if |d.data| >= need then Done(u, need) else NotYet(PutBack(u, d.emptied))
  }

  lemma {:induction false} DrainGrows(q: seq<Segment>, data: seq<byte>, limit: nat)
    ensures data <= Drain(q, data, limit).data
    ensures Drain(q, data, limit).data + QueueBytes(Drain(q, data, limit).queue) == data + QueueBytes(q)
    decreases |q|
  {
    if |data| + READ_CHUNK <= limit {
      var r := Recv(q, READ_CHUNK);
      RecvTakes(q, READ_CHUNK);
      if r.n > 0 {
        DrainGrows(r.rest, data + r.data, limit);
        Associate(data, r.data, QueueBytes(r.rest));
      } else {
        assert r.data == [] && [] + QueueBytes(r.rest) == QueueBytes(r.rest);
      }
    }
  }

  /** The bytes a read into a streambuf takes: whole messages up to the first that is empty or oversized. */
  function Fitting(q: seq<Segment>): seq<byte>
    decreases |q|
  {
    var r := Recv(q, READ_CHUNK);
    if r.n > 0 then r.data + Fitting(r.rest) else []
  }

  /** An attempt made now would finish the read, if its streambuf has room. */
  predicate CanFinish(s: Conn, op: ReadOp)
    requires ValidOp(s, op)
  {
    match op
    case SomeOp(_, capacity) => Recv(s.kcp.queue, capacity).n > 0
    case StreamOp(_, buf, need) => |s.bufs[buf].data| + |Fitting(s.kcp.queue)| >= need
  }

  // ---------------------------------------------------------------- initiating operations

  function Post(s: Conn, t: Task): Conn {
    s.(posted := s.posted + [t])
  }

  function Begin(s: Conn, h: Handler): Conn {
    s.(history := s.history.(initiated := s.history.initiated + [h]))
  }

  function InitiateRead(s: Conn, op: ReadOp): Conn {
    var t := Begin(s, op.h);
    if t.readOp.Some? || t.state == Closed then
      Post(t, HandlerTask(op.h, if t.state == Closed then OperationAborted else InProgress))
    else
      Post(t.(readOp := Some(op)), CheckTask)
  }

  function InitiateWrite(s: Conn, result: SendResult, h: Handler): Conn {
    var t := Begin(s, h);
    if t.writeOp.Some? || t.state == Closed then
      Post(t, HandlerTask(h, if t.state == Closed then OperationAborted else InProgress))
    else Send(t, result, h)
  }

  function Send(s: Conn, result: SendResult, h: Handler): Conn {
    var t := s.(nextTick := 0, kcp := s.kcp.(touched := true));
    match result
    case Rejected => Post(t, HandlerTask(h, MessageSize))
    case Queued(packets) =>
      var u := t.(kcp := t.kcp.(waitsnd := t.kcp.waitsnd + packets));
      if u.kcp.waitsnd <= IDLE_SEND_PACKET_COUNT then Post(u, HandlerTask(h, NoError))
      else u.(writeOp := Some(h))
  }

  /** basic_streambuf::consume: a count past the end takes everything. */
  function ConsumeBuffer(s: Conn, buf: nat, count: nat): Conn
    requires buf < |s.bufs|
  {
    var b := s.bufs[buf];
    var n := Min(count, |b.data|);
    s.(bufs := s.bufs[buf := b.(data := b.data[n..])],
       history := s.history.(removed := s.history.removed + [Removal(buf, b.data[..n])]))
  }

  // ---------------------------------------------------------------- completing operations

  /** Handlers recurse into completions only through close, and close acts only once. */
  function Openness(s: Conn): nat {
    if s.state == Opened then 1 else 0
  }

  function Log(s: Conn, c: Completion): Conn {
    s.(history := s.history.(completed := s.history.completed + [c]))
  }

  /** A read is over, with an error or with a byte count. */
  function ReadDone(op: ReadOp, ec: ErrorCode, n: nat): Completion {
    Completion(op.h, ec, n, OfRead(op))
  }

  function Complete(s: Conn, c: Completion): (r: Conn)
    ensures Openness(r) <= Openness(s)
    decreases Openness(s), 2, 0
  {
    RunScript(Log(s, c), c.h.script)
  }

  function RunScript(s: Conn, script: seq<Action>): (r: Conn)
    ensures Openness(r) <= Openness(s)
    decreases Openness(s), 1, |script|
  {
    if s.thrown || script == [] then s
    else RunScript(Perform(s, script[0]), script[1..])
  }

  /** One call made by user code; a streambuf it names exists, or there is no such call. */
  function Perform(s: Conn, a: Action): (r: Conn)
    ensures Openness(r) <= Openness(s)
    decreases Openness(s), 0, 1
  {
    match a
    case ReadSome(capacity, h) => InitiateRead(s, SomeOp(h, capacity))
    case Read(buf, need, h) => if buf < |s.bufs| then InitiateRead(s, StreamOp(h, buf, need)) else s
    case Write(result, h) => InitiateWrite(s, result, h)
    case Consume(buf, count) => if buf < |s.bufs| then ConsumeBuffer(s, buf, count) else s
    case Close(ec) => CloseConn(s, ec)
  }

  function CloseConn(s: Conn, ec: ErrorCode): (r: Conn)
    ensures Openness(r) <= Openness(s)
    decreases Openness(s), 0, 0
  {
    if s.state != Opened then s
    else
      var t := CheckRead(Closing(s, ec), ec);
      if t.thrown then t else Disconnected(t)
  }

  function Closing(s: Conn, ec: ErrorCode): Conn {
    s.(state := Closed, history := s.history.(reason := ec))
  }

  /** The frame is sent; a client also closes its socket, which ends the receive, and cancels its timer. */
  function Disconnected(s: Conn): Conn {
    s.(io := if s.id.isServer then s.io else STOPPED,
       history := s.history.(disconnects := s.history.disconnects + 1))
  }

  function CheckRead(s: Conn, ec: ErrorCode): (r: Conn)
    ensures Openness(r) <= Openness(s)
    decreases Openness(s), 5, 0
  {
    CheckWrite(SettleRead(s, ec), ec)
  }

  /** The pending read is taken out of its slot, tried, and put back if it cannot finish yet. */
  function SettleRead(s: Conn, ec: ErrorCode): (r: Conn)
    ensures Openness(r) <= Openness(s)
    decreases Openness(s), 4, 0
  {
    if s.readOp.None? || !ValidOp(s, s.readOp.value) then s
    else
      var (finished, t) := CompleteRead(s.(readOp := None), s.readOp.value, ec);
      if finished || t.thrown then t else t.(readOp := s.readOp)
  }

  /** do_complete of a read: whether the operation is over, and the connection after it. */
  function CompleteRead(s: Conn, op: ReadOp, ec: ErrorCode): (r: (bool, Conn))
    requires ValidOp(s, op)
    ensures Openness(r.1) <= Openness(s)
    decreases Openness(s), 3, 0
  {
    if ec != NoError then (true, Complete(s, ReadDone(op, ec, 0)))
    else
      match TryRead(s, op)
      case Done(t, n) => (true, Complete(t, ReadDone(op, NoError, n)))
      case NotYet(t) => (false, t)
      case Threw(t) => (false, t)
  }

  function CheckWrite(s: Conn, ec: ErrorCode): (r: Conn)
    ensures Openness(r) <= Openness(s)
    decreases Openness(s), 3, 0
  {
    if s.thrown || s.writeOp.None? then s
    else if ec != NoError || s.kcp.waitsnd <= IDLE_SEND_PACKET_COUNT then
      Complete(s.(writeOp := None), Completion(s.writeOp.value, ec, 0, OfWrite))
    else s
  }

  // ---------------------------------------------------------------- outermost steps

  datatype Event =
    | UserCall(a: Action)
    | RunPosted(i: nat)
    | Receive(data: seq<byte>, t: int, input: InputResult)
    | ReceiveFailed(ec: ErrorCode)
    | Update(now: int, next: int)
    | Timer(now: int, next: int)
    | RunClient
    | AddBuffer(limit: nat)

  function OnReceive(s: Conn, data: seq<byte>, t: int, input: InputResult): Conn {
    if |data| < KCP_HEADER_SIZE then s
    else
      var u := s.(state := if s.state == Idle then Opened else s.state, nowTick := t);
      if data[0] == OPCODE_DATA then
        CheckRead(u.(kcp := InputKcp(u.kcp, input), nextTick := 0), NoError)
      else if data[0] == OPCODE_DISCONNECT then CloseConn(u, Eof)
      else u
  }

  /** `next` is ikcp_check's answer. */
  function UpdateConn(s: Conn, now: int, next: int): Conn {
    if s.nextTick <= now then s.(nextTick := next, kcp := s.kcp.(touched := false)) else s
  }

  function RunTask(s: Conn, i: nat): Conn
    requires i < |s.posted|
  {
    var t := s.(posted := s.posted[..i] + s.posted[i + 1..]);
    match s.posted[i]
    case CheckTask => CheckRead(t, NoError)
    case HandlerTask(h, ec) => Complete(t, Completion(h, ec, 0, OfPost))
  }

  /** A datagram on the client's own socket: handled, and then received again unless closed. */
  function OnClientReceive(s: Conn, data: seq<byte>, t: int, input: InputResult): Conn {
    var r := OnReceive(s.(io := s.io.(receiving := false)), data, t, input);
    if r.thrown then r else r.(io := r.io.(receiving := r.state != Closed))
  }

  /** The client's timer goes off: update, and either time out or start it again. */
  function OnTimer(s: Conn, now: int, next: int): Conn {
    var u := UpdateConn(s.(io := s.io.(ticking := false)), now, next);
    if now - u.nowTick > TIMEOUT_DURATION then CloseConn(u, TimedOut)
    else u.(io := u.io.(ticking := true))
  }

  /**
   * An exception leaves the event loop, so a connection that threw takes no further step; and a client
   * is started before anyone else gets hold of it.
   */
  predicate Inert(s: Conn, e: Event) {
    s.thrown || (!s.id.isServer && s.state == Idle && e != RunClient)
  }

  function Step(s: Conn, e: Event): Conn {
    if Inert(s, e) then s
    else
      match e
      case UserCall(a) => Perform(s, a)
      case RunPosted(i) => if i < |s.posted| then RunTask(s, i) else s
      case Receive(data, t, input) =>
        if s.id.isServer then OnReceive(s, data, t, input) else OnClientReceive(s, data, t, input)
      case ReceiveFailed(ec) =>
        if s.id.isServer then s else CloseConn(s.(io := s.io.(receiving := false)), ec)
      case Update(now, next) => UpdateConn(s, now, next)
      case Timer(now, next) => if s.id.isServer then s else OnTimer(s, now, next)
      case RunClient => if !s.id.isServer && s.state == Idle then s.(state := Opened, io := STARTED) else s
      case AddBuffer(limit) => s.(bufs := s.bufs + [Buffer([], limit)])
  }

  function Run(s: Conn, events: seq<Event>): Conn {
    if events == [] then s else Step(Run(s, events[..|events| - 1]), events[|events| - 1])
  }
}
