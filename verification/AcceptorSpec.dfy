/** The acceptor of include/kcp.hpp as a state machine over values, one step per resumption. */
module AcceptorSpec {
  import opened Common
  import opened KcpQueue
  import opened ConnectionSpec

  const CONV_SIZE := 4

  /** An accept handler: what it does with the connection, and the accepts it queues in turn. */
  datatype AcceptOp = AcceptOp(id: nat, script: seq<Action>, again: seq<AcceptOp>)

  /** A handshake coroutine that has been spawned and has not run yet. */
  datatype Spawned = Spawned(conv: Conv, from: Endpoint)

  datatype Frame = Frame(to: Endpoint, data: seq<byte>)

  datatype Served = Served(op: AcceptOp, endpoint: Endpoint, conv: Conv)

  /** A connection the acceptor let go of: as it was, and as the acceptor's last call on it left it. */
  datatype Retired = Retired(before: Conn, after: Conn)

  /**
   * `sent`, `pushed`, `served` and `retired` record what has happened; no branch looks at them. Each
   * replacement and each sweep adds one element to `retired`, since a sweep has no order of its own.
   */
  datatype Acceptor = Acceptor(
    now: int,
    magic: seq<byte>,
    accepts: seq<AcceptOp>,
    conns: map<Endpoint, Conn>,
    spawned: seq<Spawned>,
    sent: seq<Frame>,
    pushed: seq<AcceptOp>,
    served: seq<Served>,
    retired: seq<map<Endpoint, Retired>>)

  function NewAcceptor(magic: seq<byte>, now: int): Acceptor {
    Acceptor(now, magic, [], map[], [], [], [], [], [])
  }

  // ---------------------------------------------------------------- frames

  function ConvBytes(c: Conv): seq<byte> {
    [c.b0, c.b1, c.b2, c.b3]
  }

  function ConvAt(data: seq<byte>, i: nat): Conv
    requires i + CONV_SIZE <= |data|
  {
    Conv(data[i], data[i + 1], data[i + 2], data[i + 3])
  }

  function HandshakeFrame(magic: seq<byte>, conv: Conv): seq<byte> {
    [OPCODE_HANDSHAKE] + magic + ConvBytes(conv)
  }

  function ResponseFrame(conv: Conv): seq<byte> {
    [OPCODE_HANDSHAKE_RESPONSE] + ConvBytes(conv)
  }

  predicate IsHandshake(magic: seq<byte>, data: seq<byte>) {
    && |data| == 1 + |magic| + CONV_SIZE
    && data[0] == OPCODE_HANDSHAKE
    && data[1..1 + |magic|] == magic
  }

  // ---------------------------------------------------------------- steps

  function PushAccepts(a: Acceptor, ops: seq<AcceptOp>): Acceptor {
    a.(accepts := a.accepts + ops, pushed := a.pushed + ops)
  }

  /** An empty datagram leaves an old opcode in the buffer, but no branch does anything with no bytes. */
  function OnDatagram(a: Acceptor, from: Endpoint, data: seq<byte>, input: InputResult): Acceptor {
    if data == [] || data[0] >= OPCODE_MAX then a
    else if data[0] == OPCODE_HANDSHAKE then
      if IsHandshake(a.magic, data) then a.(spawned := a.spawned + [Spawned(ConvAt(data, 1 + |a.magic|), from)])
      else a
    else if from in a.conns then
      a.(conns := a.conns[from := OnReceive(a.conns[from], data, a.now, input)])
    else a
  }

  /** The connection a handshake answers for: the idle one already there, or a new one. */
  function Answering(a: Acceptor, h: Spawned, clock: int): Conn {
    if h.from in a.conns && a.conns[h.from].state == Idle then a.conns[h.from]
    else NewConn(Identity(true, h.conv, h.from), clock)
  }

  /** What a handshake that finds a connection past idle makes of it. */
  function Replaced(a: Acceptor, h: Spawned): seq<map<Endpoint, Retired>> {
    if h.from in a.conns && a.conns[h.from].state != Idle
    then [map[h.from := Retired(a.conns[h.from], CloseConn(a.conns[h.from], OperationAborted))]]
    else []
  }

  /** The accept queue must not be empty: the code takes its front without looking. */
  function Handshake(a: Acceptor, i: nat, clock: int): Acceptor
    requires i < |a.spawned| && a.accepts != []
  {
    var h := a.spawned[i];
    var c := Answering(a, h, clock);
    var op := a.accepts[0];
    PushAccepts(
      a.(spawned := a.spawned[..i] + a.spawned[i + 1..],
         sent := a.sent + [Frame(h.from, ResponseFrame(c.id.conv))],
         accepts := a.accepts[1..],
         served := a.served + [Served(op, h.from, c.id.conv)],
         retired := a.retired + Replaced(a, h),
         conns := a.conns[h.from := RunScript(c, op.script)]),
      op.again)
  }

  predicate Stale(c: Conn, now: int) {
    c.state == Closed || now - c.nowTick > TIMEOUT_DURATION
  }

  /** What the sweep makes of one connection. */
  function Swept(c: Conn, now: int, next: int): Conn {
    var u := UpdateConn(c, now, next);
    if Stale(c, now) then CloseConn(u, if u.state == Closed then OperationAborted else TimedOut) else u
  }

  /** ikcp_check's answer for each connection. */
  function Answer(next: map<Endpoint, int>, e: Endpoint): int {
    if e in next then next[e] else 0
  }

  function Sweep(a: Acceptor, now: int, next: map<Endpoint, int>): Acceptor {
    a.(now := now,
       conns := Remaining(a.conns, now, next),
       retired := a.retired + [Erased(a.conns, now, next)])
  }

  function Remaining(conns: map<Endpoint, Conn>, now: int, next: map<Endpoint, int>): map<Endpoint, Conn> {
    map e | e in conns && !Stale(conns[e], now) :: Swept(conns[e], now, Answer(next, e))
  }

  function Erased(conns: map<Endpoint, Conn>, now: int, next: map<Endpoint, int>): map<Endpoint, Retired> {
    map e | e in conns && Stale(conns[e], now) :: Retired(conns[e], Swept(conns[e], now, Answer(next, e)))
  }

  datatype AcceptorEvent =
    | AsyncAccept(op: AcceptOp)
    | Datagram(from: Endpoint, data: seq<byte>, input: InputResult)
    | RunHandshake(i: nat)
    | RunSweep(next: map<Endpoint, int>)
    | OnConnection(e: Endpoint, event: Event)

  datatype Timed = Timed(at: int, event: AcceptorEvent)

  /** What users and the executor do to a server connection; its datagrams come through the acceptor. */
  predicate Local(e: Event) {
    e.UserCall? || e.RunPosted? || e.AddBuffer?
  }

  /** A connection that threw has stopped the event loop. */
  ghost predicate Halted(a: Acceptor) {
    exists e :: e in a.conns && a.conns[e].thrown
  }

  ghost predicate Enabled(a: Acceptor, ev: AcceptorEvent) {
    && !Halted(a)
    && match ev
       case RunHandshake(i) => i < |a.spawned| && a.accepts != []
       case OnConnection(e, event) => e in a.conns && Local(event)
       case _ => true
  }

  ghost function AcceptorStep(a: Acceptor, ev: Timed): Acceptor {
    if !Enabled(a, ev.event) then a
    else
      match ev.event
      case AsyncAccept(op) => PushAccepts(a, [op])
      case Datagram(from, data, input) => OnDatagram(a, from, data, input)
      case RunHandshake(i) => Handshake(a, i, ev.at)
      case RunSweep(next) => Sweep(a, ev.at, next)
      case OnConnection(e, event) => a.(conns := a.conns[e := Step(a.conns[e], event)])
  }

  ghost function AcceptorRun(a: Acceptor, events: seq<Timed>): Acceptor {
    if events == [] then a
    else AcceptorStep(AcceptorRun(a, events[..|events| - 1]), events[|events| - 1])
  }
}
