/** What every run of the acceptor keeps: keys, accept order, connection invariants, and timeouts. */
module AcceptorLaws {
  import opened Common
  import opened KcpQueue
  import opened ConnectionSpec
  import opened ConnectionLaws
  import opened ConnectionTheorems
  import opened ConnectionOutcomes
  import opened AcceptorSpec

  // ---------------------------------------------------------------- invariant

  function Ops(served: seq<Served>): seq<AcceptOp> {
    if served == [] then [] else Ops(served[..|served| - 1]) + [served[|served| - 1].op]
  }

  /** Every entry sits under its own address and keeps the connection's invariant. */
  ghost predicate Entries(a: Acceptor) {
    forall e | e in a.conns :: Entry(e, a.conns[e])
  }

  ghost predicate Entry(e: Endpoint, c: Conn) {
    c.id.endpoint == e && c.id.isServer && Lives(c)
  }

  /** The accepts queued are those served, in that order, followed by those still waiting. */
  predicate AcceptOrder(a: Acceptor) {
    a.pushed == Ops(a.served) + a.accepts
  }

  /**
   * How a connection leaves the acceptor. One that never opened is dropped as it is; any other ends
   * closed, and if it was open its pending operations have learnt why. What a user left pending by
   * closing with a zero code stays pending, because closing a closed connection does nothing.
   */
  ghost predicate Parted(e: Endpoint, t: Retired) {
    var c, r := t.before, t.after;
    && Entry(e, c) && Entry(e, r) && !c.thrown && !r.thrown
    && (c.state == Idle ==> r.state == Idle)
    && (c.state != Idle ==> r.state == Closed && r.history.disconnects == 1)
    && (r.readOp.None? && r.writeOp.None? <==> c.state == Opened || (c.readOp.None? && c.writeOp.None?))
    && (c.state == Opened ==>
          && (r.history.reason == OperationAborted || r.history.reason == TimedOut)
          && |c.history.completed| <= |r.history.completed| && PendingGets(c, r, r.history.reason))
    && (c.state != Opened ==> r.history == c.history)
  }

  ghost predicate AllParted(a: Acceptor) {
    forall k, e | 0 <= k < |a.retired| && e in a.retired[k] :: Parted(e, a.retired[k][e])
  }

  ghost predicate AcceptorInv(a: Acceptor) {
    Entries(a) && AcceptOrder(a) && AllParted(a)
  }

  // ---------------------------------------------------------------- one connection at a time

  lemma {:induction false} ScriptKeepsEntry(e: Endpoint, c: Conn, script: seq<Action>)
    requires Entry(e, c) && !c.thrown && c.state != Opened
    ensures var r := RunScript(c, script);
            Entry(e, r) && !r.thrown && r.state == c.state && r.nowTick == c.nowTick && r.id == c.id
  {
    RunScriptKeeps(c, script);
  }

  lemma {:induction false} StepKeepsEntry(e: Endpoint, c: Conn, event: Event)
    requires Entry(e, c) && !c.thrown
    ensures Entry(e, Step(c, event))
    ensures !event.Receive? ==> Step(c, event).nowTick == c.nowTick
    ensures Rank(c.state) <= Rank(Step(c, event).state) && Step(c, event).id == c.id
  {
    StepIsStable(c, event);
  }

  lemma {:induction false} StableUpdate(c: Conn, now: int, next: int)
    requires Stable(c) && !c.thrown
    ensures var u := UpdateConn(c, now, next);
            Stable(u) && !u.thrown && u.state == c.state && u.nowTick == c.nowTick && u.id == c.id
  {
    QuietIsStable(c, UpdateConn(c, now, next), Update(now, next));
  }

  lemma {:induction false} AnsweringIsEntry(a: Acceptor, h: Spawned, clock: int)
    requires Entries(a) && !Halted(a)
    ensures var c := Answering(a, h, clock);
            Entry(h.from, c) && !c.thrown && c.state == Idle
  {
    FreshIsStable(Identity(true, h.conv, h.from), clock);
  }

  // ---------------------------------------------------------------- one acceptor step

  lemma {:induction false} StepKeepsInv(a: Acceptor, ev: Timed)
    requires AcceptorInv(a)
    ensures AcceptorInv(AcceptorStep(a, ev))
  {
    if Enabled(a, ev.event) {
      match ev.event
      case AsyncAccept(op) =>
        assert Ops(a.served) + a.accepts + [op] == Ops(a.served) + (a.accepts + [op]);
      case Datagram(from, data, input) =>
        if from in a.conns && data != [] {
          StepKeepsEntry(from, a.conns[from], Receive(data, a.now, input));
        }
      case RunHandshake(i) => HandshakeKeepsInv(a, i, ev.at);
      case RunSweep(next) =>
        SweepKeepsInv(a, ev.at, next);
      case OnConnection(e, event) => StepKeepsEntry(e, a.conns[e], event);
    }
  }

  lemma {:induction false} SweepKeepsInv(a: Acceptor, now: int, next: map<Endpoint, int>)
    requires AcceptorInv(a) && !Halted(a)
    ensures AcceptorInv(Sweep(a, now, next))
  {
    forall e | e in a.conns && !Stale(a.conns[e], now)
      ensures Entry(e, Swept(a.conns[e], now, Answer(next, e)))
    {
      StableUpdate(a.conns[e], now, Answer(next, e));
    }
    forall e | e in a.conns && Stale(a.conns[e], now)
      ensures Parted(e, Retired(a.conns[e], Swept(a.conns[e], now, Answer(next, e))))
    {
      SweptParts(e, a.conns[e], now, Answer(next, e));
    }
    AppendOne(a.retired, Erased(a.conns, now, next));
  }

  lemma {:induction false} SweptParts(e: Endpoint, c: Conn, now: int, next: int)
    requires Entry(e, c) && !c.thrown && Stale(c, now)
    ensures Parted(e, Retired(c, Swept(c, now, next)))
  {
    StableUpdate(c, now, next);
    SweptOutcome(c, now, next);
    if c.state == Opened {
      CloseIsEntry(e, UpdateConn(c, now, next), TimedOut);
    }
  }

  lemma {:induction false} CloseIsEntry(e: Endpoint, c: Conn, ec: ErrorCode)
    requires Entry(e, c) && !c.thrown && c.state != Idle && ec != NoError
    ensures Entry(e, CloseConn(c, ec)) && !CloseConn(c, ec).thrown
  {
    StepIsStable(c, UserCall(Close(ec)));
    CloseKeeps(c, ec);
  }

  lemma {:induction false} ReplacedParts(e: Endpoint, c: Conn)
    requires Entry(e, c) && !c.thrown && c.state != Idle
    ensures Parted(e, Retired(c, CloseConn(c, OperationAborted)))
  {
    RemovedIsDrained(c, OperationAborted);
    CloseIsEntry(e, c, OperationAborted);
  }

  lemma {:induction false} HandshakeKeepsInv(a: Acceptor, i: nat, clock: int)
    requires AcceptorInv(a) && !Halted(a) && i < |a.spawned| && a.accepts != []
    ensures AcceptorInv(Handshake(a, i, clock))
  {
    var h := a.spawned[i];
    AnsweringIsEntry(a, h, clock);
    var c := Answering(a, h, clock);
    ScriptKeepsEntry(h.from, c, a.accepts[0].script);
    ServedInOrder(a.pushed, a.served, a.accepts, Served(a.accepts[0], h.from, c.id.conv));
    HandshakeKeepsParted(a, i, clock);
  }

  /** The last step parted with this connection, under this address. */
  ghost predicate Left(r: Acceptor, e: Endpoint, c: Conn) {
    && r.retired != []
    && e in r.retired[|r.retired| - 1]
    && r.retired[|r.retired| - 1][e].before == c
    && Parted(e, r.retired[|r.retired| - 1][e])
  }

  /** What it was parted with is a close with operation_aborted, and its pending operations learnt that. */
  ghost predicate Aborted(r: Acceptor, e: Endpoint, c: Conn)
    requires Left(r, e, c)
  {
    var after := r.retired[|r.retired| - 1][e].after;
    && after == CloseConn(c, OperationAborted)
    && (c.state == Opened ==>
          && after.history.reason == OperationAborted
          && |c.history.completed| <= |after.history.completed| && PendingGets(c, after, OperationAborted))
  }

  lemma {:induction false} HandshakeParts(a: Acceptor, i: nat, clock: int)
    requires Entries(a) && !Halted(a) && i < |a.spawned| && a.accepts != []
    ensures var e := a.spawned[i].from;
            var r := Handshake(a, i, clock);
            && r.retired == a.retired + Replaced(a, a.spawned[i])
            && if e in a.conns && a.conns[e].state != Idle
               then |r.retired| == |a.retired| + 1 && Left(r, e, a.conns[e]) && Aborted(r, e, a.conns[e])
               else r.retired == a.retired
  {
    var h := a.spawned[i];
    if h.from in a.conns && a.conns[h.from].state != Idle {
      ReplacedParts(h.from, a.conns[h.from]);
      RemovedIsDrained(a.conns[h.from], OperationAborted);
      AppendOne(a.retired, Replaced(a, h)[0]);
    } else {
      assert a.retired + [] == a.retired;
    }
  }

  lemma {:induction false} HandshakeKeepsParted(a: Acceptor, i: nat, clock: int)
    requires Entries(a) && AllParted(a) && !Halted(a) && i < |a.spawned| && a.accepts != []
    ensures AllParted(Handshake(a, i, clock))
  {
    var h := a.spawned[i];
    assert Handshake(a, i, clock).retired == a.retired + Replaced(a, h);
    if h.from in a.conns && a.conns[h.from].state != Idle {
      ReplacedParts(h.from, a.conns[h.from]);
    }
  }

  lemma {:induction false} ServedInOrder(pushed: seq<AcceptOp>, served: seq<Served>, accepts: seq<AcceptOp>,
                                         last: Served)
    requires accepts != [] && last.op == accepts[0] && pushed == Ops(served) + accepts
    ensures pushed + last.op.again == Ops(served + [last]) + (accepts[1..] + last.op.again)
  {
    AppendOne(served, last);
    assert accepts == [last.op] + accepts[1..];
    assert Ops(served) + ([last.op] + accepts[1..]) + last.op.again
        == Ops(served) + [last.op] + (accepts[1..] + last.op.again);
  }

  lemma {:induction false} RunKeepsInv(a: Acceptor, events: seq<Timed>)
    requires AcceptorInv(a)
    ensures AcceptorInv(AcceptorRun(a, events))
    decreases |events|
  {
    if events != [] {
      RunKeepsInv(a, events[..|events| - 1]);
      StepKeepsInv(AcceptorRun(a, events[..|events| - 1]), events[|events| - 1]);
    }
  }

  // ---------------------------------------------------------------- timeouts

  /** When the acceptor last swept, or was made. */
  function LastSweep(start: int, events: seq<Timed>): int {
    if events == [] then start
    else if events[|events| - 1].event.RunSweep? then events[|events| - 1].at
    else LastSweep(start, events[..|events| - 1])
  }

  /** A datagram that counts as a sign of life: a KCP header or more, and not a handshake. */
  predicate Heard(ev: Timed, e: Endpoint) {
    && ev.event.Datagram?
    && ev.event.from == e
    && |ev.event.data| >= KCP_HEADER_SIZE
    && ev.event.data[0] < OPCODE_MAX
    && ev.event.data[0] != OPCODE_HANDSHAKE
  }

  /** When such a datagram last came from an address, read off the trace alone. */
  function LastHeard(events: seq<Timed>, e: Endpoint): Option<int> {
    if events == [] then None
    else if Heard(events[|events| - 1], e) then Some(events[|events| - 1].at)
    else LastHeard(events[..|events| - 1], e)
  }

  /** The clock does not run backwards, and sweeps come at most `gap` ms apart. */
  predicate Paced(start: int, gap: nat, events: seq<Timed>) {
    events == [] ||
    var last := events[|events| - 1];
    var before := events[..|events| - 1];
    && Paced(start, gap, before)
    && LastSweep(start, before) <= last.at <= LastSweep(start, before) + gap
  }

  /** The stamp of an open connection lags its last datagram by at most the gap. */
  ghost predicate Stamped(a: Acceptor, gap: nat, events: seq<Timed>) {
    forall e | e in a.conns :: StampLags(a.conns[e], gap, LastHeard(events, e))
  }

  predicate StampLags(c: Conn, gap: nat, heard: Option<int>) {
    c.state != Idle ==> heard.Some? && heard.value - gap <= c.nowTick <= heard.value
  }

  lemma {:induction false} StepKeepsStamps(a: Acceptor, start: int, gap: nat, events: seq<Timed>, ev: Timed)
    requires Entries(a) && !Halted(a)
    requires a.now == LastSweep(start, events) && Stamped(a, gap, events)
    requires Paced(start, gap, events + [ev])
    ensures var r := AcceptorStep(a, ev);
            r.now == LastSweep(start, events + [ev]) && (!Halted(r) ==> Stamped(r, gap, events + [ev]))
  {
    AppendOne(events, ev);
    var r := AcceptorStep(a, ev);
    if Enabled(a, ev.event) && !Halted(r) {
      match ev.event
      case AsyncAccept(op) =>
      case Datagram(from, data, input) => DatagramKeepsStamps(a, gap, events, ev);
      case RunHandshake(i) =>
        var h := a.spawned[i];
        AnsweringIsEntry(a, h, ev.at);
        ScriptKeepsEntry(h.from, Answering(a, h, ev.at), a.accepts[0].script);
      case RunSweep(next) =>
      case OnConnection(e, event) => LocalKeepsStamp(e, a.conns[e], event);
    }
  }

  lemma {:induction false} DatagramKeepsStamps(a: Acceptor, gap: nat, events: seq<Timed>, ev: Timed)
    requires Entries(a) && !Halted(a) && ev.event.Datagram?
    requires Stamped(a, gap, events) && a.now <= ev.at <= a.now + gap
    ensures Stamped(AcceptorStep(a, ev), gap, events + [ev])
  {
    var r := AcceptorStep(a, ev);
    var from, data := ev.event.from, ev.event.data;
    forall e | e in r.conns ensures StampLags(r.conns[e], gap, LastHeard(events + [ev], e)) {
      AppendOne(events, ev);
      assert StampLags(a.conns[e], gap, LastHeard(events, e));
      if from == e {
        SignOfLife(a.conns[e], data, a.now, ev.event.input);
      }
    }
  }

  /** A server connection leaves idle only when a datagram arrives. */
  lemma {:induction false} LocalKeepsStamp(e: Endpoint, c: Conn, event: Event)
    requires Entry(e, c) && !c.thrown && Local(event)
    ensures Step(c, event).nowTick == c.nowTick
    ensures c.state == Idle ==> Step(c, event).state == Idle
  {
    StepKeepsEntry(e, c, event);
    match event
    case UserCall(a) => PerformKeeps(c, a);
    case RunPosted(i) =>
      if i < |c.posted| {
        var t := c.(posted := c.posted[..i] + c.posted[i + 1..]);
        match c.posted[i]
        case CheckTask => CheckReadKeeps(t, NoError);
        case HandlerTask(h, ec) => RunScriptKeeps(Log(t, Completion(h, ec, 0, OfPost)), h.script);
      }
    case AddBuffer(limit) =>
  }

  lemma {:induction false} RunKeepsStamps(magic: seq<byte>, start: int, gap: nat, events: seq<Timed>)
    requires Paced(start, gap, events)
    requires !Halted(AcceptorRun(NewAcceptor(magic, start), events))
    ensures var r := AcceptorRun(NewAcceptor(magic, start), events);
            r.now == LastSweep(start, events) && Stamped(r, gap, events)
    decreases |events|
  {
    if events != [] {
      var before, last := events[..|events| - 1], events[|events| - 1];
      assert before + [last] == events;
      RunKeepsInv(NewAcceptor(magic, start), before);
      RunKeepsStamps(magic, start, gap, before);
      StepKeepsStamps(AcceptorRun(NewAcceptor(magic, start), before), start, gap, before, last);
    }
  }

  /**
   * Although receives are stamped with the time of the last sweep, an open connection outlives every
   * sweep up to 30 s minus the gap after its last datagram, and none later than 30 s after it.
   */
  lemma {:induction false} TimeoutAccuracy(magic: seq<byte>, start: int, gap: nat, events: seq<Timed>, e: Endpoint,
                        at: int, next: map<Endpoint, int>)
    requires Paced(start, gap, events + [Timed(at, RunSweep(next))])
    requires var a := AcceptorRun(NewAcceptor(magic, start), events);
             !Halted(a) && e in a.conns && a.conns[e].state == Opened
    ensures var swept := AcceptorRun(NewAcceptor(magic, start), events + [Timed(at, RunSweep(next))]);
            var heard := LastHeard(events, e);
            && heard.Some?
            && (at <= heard.value + TIMEOUT_DURATION - gap ==> e in swept.conns && swept.conns[e].state == Opened)
            && (at > heard.value + TIMEOUT_DURATION ==> e !in swept.conns)
  {
    AppendOne(events, Timed(at, RunSweep(next)));
    RunKeepsStamps(magic, start, gap, events);
  }

  // ---------------------------------------------------------------- runs with room for what arrives

  /** All that KCP can accept, on any connection, over these events. */
  function Arriving(events: seq<Timed>): nat {
    if events == [] then 0 else Arriving(events[..|events| - 1]) + ArrivingIn(events[|events| - 1].event)
  }

  function ArrivingIn(ev: AcceptorEvent): nat {
    if ev.Datagram? then |AcceptedBy(Receive(ev.data, 0, ev.input))| else 0
  }

  /** Every streambuf made is big enough for `n` bytes and one more prepare. */
  predicate AmpleFor(events: seq<Timed>, n: nat) {
    forall ev <- events | ev.event.OnConnection? && ev.event.event.AddBuffer? ::
      n + READ_CHUNK <= ev.event.event.limit
  }

  ghost predicate Roomy(conns: map<Endpoint, Conn>, arrived: nat, n: nat) {
    forall e | e in conns :: RoomyConn(conns[e], arrived, n)
  }

  ghost predicate RoomyConn(c: Conn, arrived: nat, n: nat) {
    !c.thrown && |Stream(c)| <= arrived && forall b | 0 <= b < |c.bufs| :: n + READ_CHUNK <= c.bufs[b].limit
  }

  /** An acceptor whose users make streambufs that hold what arrives never meets an exception. */
  lemma {:induction false} AmpleNeverHalts(magic: seq<byte>, start: int, events: seq<Timed>)
    requires AmpleFor(events, Arriving(events))
    ensures !Halted(AcceptorRun(NewAcceptor(magic, start), events))
  {
    RoomRemainsInAll(magic, start, events, Arriving(events));
  }

  lemma {:induction false} RoomRemainsInAll(magic: seq<byte>, start: int, events: seq<Timed>, n: nat)
    requires AmpleFor(events, n) && Arriving(events) <= n
    ensures Roomy(AcceptorRun(NewAcceptor(magic, start), events).conns, Arriving(events), n)
    decreases |events|
  {
    if events != [] {
      var k := |events| - 1;
      var a := AcceptorRun(NewAcceptor(magic, start), events[..k]);
      assert events[k] in events && forall ev <- events[..k] :: ev in events;
      RoomRemainsInAll(magic, start, events[..k], n);
      RunKeepsInv(NewAcceptor(magic, start), events[..k]);
      if Enabled(a, events[k].event) {
        StepKeepsRoom(a, events[k], Arriving(events[..k]), n);
      }
    }
  }

  lemma {:induction false} StepKeepsRoom(a: Acceptor, ev: Timed, arrived: nat, n: nat)
    requires Entries(a) && Enabled(a, ev.event) && Roomy(a.conns, arrived, n)
    requires arrived + ArrivingIn(ev.event) <= n
    requires ev.event.OnConnection? && ev.event.event.AddBuffer? ==> n + READ_CHUNK <= ev.event.event.limit
    ensures Roomy(AcceptorStep(a, ev).conns, arrived + ArrivingIn(ev.event), n)
  {
    match ev.event
    case AsyncAccept(op) =>
    case Datagram(from, data, input) => DatagramKeepsRoom(a, from, data, input, arrived, n);
    case RunHandshake(i) => HandshakeKeepsRoom(a, i, ev.at, arrived, n);
    case RunSweep(next) => SweepKeepsRoom(a, ev.at, next, arrived, n);
    case OnConnection(e, event) => EntryKeepsRoom(a, e, event, arrived, n);
  }

  lemma {:induction false} DatagramKeepsRoom(a: Acceptor, from: Endpoint, data: seq<byte>, input: InputResult,
                                             arrived: nat, n: nat)
    requires Entries(a) && !Halted(a) && Roomy(a.conns, arrived, n)
    requires arrived + ArrivingIn(Datagram(from, data, input)) <= n
    ensures Roomy(OnDatagram(a, from, data, input).conns, arrived + ArrivingIn(Datagram(from, data, input)), n)
  {
    DatagramIsStep(a, from, data, input);
    RoomGrows(a.conns, arrived, arrived + ArrivingIn(Datagram(from, data, input)), n);
    if from in a.conns {
      EntryKeepsRoom(a, from, Receive(data, a.now, input), arrived, n);
    }
  }

  lemma {:induction false} RoomGrows(conns: map<Endpoint, Conn>, arrived: nat, more: nat, n: nat)
    requires Roomy(conns, arrived, n) && arrived <= more
    ensures Roomy(conns, more, n)
  {
  }

  /** A datagram changes no entry, or is a step of the sender's. */
  lemma {:induction false} DatagramIsStep(a: Acceptor, from: Endpoint, data: seq<byte>, input: InputResult)
    requires Entries(a) && !Halted(a)
    ensures var r := OnDatagram(a, from, data, input);
            r.conns == a.conns
            || (from in a.conns && r.conns == a.conns[from := Step(a.conns[from], Receive(data, a.now, input))])
  {
  }

  lemma {:induction false} EntryKeepsRoom(a: Acceptor, e: Endpoint, event: Event, arrived: nat, n: nat)
    requires Entries(a) && Roomy(a.conns, arrived, n) && e in a.conns
    requires arrived + |AcceptedBy(event)| <= n
    requires event.AddBuffer? ==> n + READ_CHUNK <= event.limit
    ensures Roomy(a.conns[e := Step(a.conns[e], event)], arrived + |AcceptedBy(event)|, n)
  {
    RoomGrows(a.conns, arrived, arrived + |AcceptedBy(event)|, n);
    assert RoomyConn(a.conns[e], arrived, n) && Entry(e, a.conns[e]);
    ConnKeepsRoom(e, a.conns[e], event, arrived, n);
  }

  lemma {:induction false} ConnKeepsRoom(e: Endpoint, c: Conn, event: Event, arrived: nat, n: nat)
    requires Entry(e, c) && RoomyConn(c, arrived, n) && arrived + |AcceptedBy(event)| <= n
    requires event.AddBuffer? ==> n + READ_CHUNK <= event.limit
    ensures RoomyConn(Step(c, event), arrived + |AcceptedBy(event)|, n)
  {
    RoomAfterStep(c, event, n);
  }

  lemma {:induction false} SweepKeepsRoom(a: Acceptor, now: int, next: map<Endpoint, int>, arrived: nat, n: nat)
    requires Roomy(a.conns, arrived, n)
    ensures Roomy(Remaining(a.conns, now, next), arrived, n)
  {
    forall e | e in a.conns && !Stale(a.conns[e], now)
      ensures RoomyConn(Swept(a.conns[e], now, Answer(next, e)), arrived, n)
    {
      assert RoomyConn(a.conns[e], arrived, n);
    }
  }

  lemma {:induction false} HandshakeKeepsRoom(a: Acceptor, i: nat, clock: int, arrived: nat, n: nat)
    requires Entries(a) && !Halted(a) && i < |a.spawned| && a.accepts != [] && Roomy(a.conns, arrived, n)
    ensures Roomy(Handshake(a, i, clock).conns, arrived, n)
  {
    var h := a.spawned[i];
    var c := Answering(a, h, clock);
    AnsweringIsEntry(a, h, clock);
    RunScriptKeeps(c, a.accepts[0].script);
  }

  // ---------------------------------------------------------------- whole runs

  /** Keys are addresses, and the k-th handshake served takes the k-th accept queued. */
  lemma {:induction false} MapAndAcceptOrder(magic: seq<byte>, start: int, events: seq<Timed>)
    ensures var a := AcceptorRun(NewAcceptor(magic, start), events);
            && (forall e | e in a.conns :: a.conns[e].id.endpoint == e && a.conns[e].id.isServer)
            && |a.pushed| == |a.served| + |a.accepts|
            && (forall k | 0 <= k < |a.served| :: a.served[k].op == a.pushed[k])
  {
    RunKeepsInv(NewAcceptor(magic, start), events);
    OpsAt(AcceptorRun(NewAcceptor(magic, start), events).served);
  }

  lemma {:induction false} OpsAt(served: seq<Served>)
    ensures |Ops(served)| == |served|
    ensures forall k | 0 <= k < |served| :: Ops(served)[k] == served[k].op
  {
    if served != [] {
      OpsAt(served[..|served| - 1]);
    }
  }

  /**
   * No connection goes unseen: one whose address is free after a step, or taken by one less far in its
   * life, has been parted with in that step.
   */
  lemma {:induction false} NothingLeavesUnseen(a: Acceptor, ev: Timed, e: Endpoint)
    requires Entries(a) && e in a.conns
    ensures var r := AcceptorStep(a, ev);
            e !in r.conns || Rank(r.conns[e].state) < Rank(a.conns[e].state)
            ==> |r.retired| == |a.retired| + 1 && Left(r, e, a.conns[e])
  {
    if Enabled(a, ev.event) {
      match ev.event
      case AsyncAccept(op) =>
      case Datagram(from, data, input) =>
        DatagramIsStep(a, from, data, input);
        if from == e {
          StepKeepsEntry(e, a.conns[e], Receive(data, a.now, input));
        }
      case RunHandshake(i) => HandshakeLeavesSeen(a, i, ev.at, e);
      case RunSweep(next) => SweepLeavesSeen(a, ev.at, next, e);
      case OnConnection(f, event) =>
        if f == e {
          StepKeepsEntry(e, a.conns[e], event);
        }
    }
  }

  lemma {:induction false} HandshakeLeavesSeen(a: Acceptor, i: nat, clock: int, e: Endpoint)
    requires Entries(a) && !Halted(a) && i < |a.spawned| && a.accepts != [] && e in a.conns
    ensures var r := Handshake(a, i, clock);
            e !in r.conns || Rank(r.conns[e].state) < Rank(a.conns[e].state)
            ==> |r.retired| == |a.retired| + 1 && Left(r, e, a.conns[e])
  {
    HandshakeOutcome(a, i, clock);
  }

  lemma {:induction false} SweepLeavesSeen(a: Acceptor, now: int, next: map<Endpoint, int>, e: Endpoint)
    requires Entries(a) && !Halted(a) && e in a.conns
    ensures var r := Sweep(a, now, next);
            e !in r.conns || Rank(r.conns[e].state) < Rank(a.conns[e].state)
            ==> |r.retired| == |a.retired| + 1 && Left(r, e, a.conns[e])
  {
    if Stale(a.conns[e], now) {
      SweptParts(e, a.conns[e], now, Answer(next, e));
      AppendOne(a.retired, Erased(a.conns, now, next));
    } else {
      StableUpdate(a.conns[e], now, Answer(next, e));
    }
  }

  /** Over every run: how each connection that was replaced or swept away has ended. */
  lemma {:induction false} RetiredHaveParted(magic: seq<byte>, start: int, events: seq<Timed>, k: nat, e: Endpoint)
    requires var a := AcceptorRun(NewAcceptor(magic, start), events); k < |a.retired| && e in a.retired[k]
    ensures var t := AcceptorRun(NewAcceptor(magic, start), events).retired[k][e];
            && !t.after.thrown
            && (if t.before.state == Idle then t.after.state == Idle else t.after.state == Closed)
            && (t.after.readOp.None? && t.after.writeOp.None?
                <==> t.before.state == Opened || (t.before.readOp.None? && t.before.writeOp.None?))
            && (t.before.state == Opened ==>
                  && t.after.history.disconnects == 1
                  && |t.before.history.completed| <= |t.after.history.completed|
                  && PendingGets(t.before, t.after, t.after.history.reason))
  {
    RunKeepsInv(NewAcceptor(magic, start), events);
    assert Parted(e, AcceptorRun(NewAcceptor(magic, start), events).retired[k][e]);
  }

  /** What a step adds to the bytes accepted from an address; a new connection starts the count afresh. */
  ghost function Extended(a: Acceptor, ev: Timed, e: Endpoint, soFar: seq<byte>): seq<byte> {
    if !Enabled(a, ev.event) then soFar
    else
      match ev.event
      case Datagram(from, data, input) =>
        if from == e && e in a.conns then soFar + AcceptedBy(Receive(data, a.now, input)) else soFar
      case RunHandshake(i) =>
        if a.spawned[i].from == e && !(e in a.conns && a.conns[e].state == Idle) then [] else soFar
      case _ => soFar
  }

  /** The bytes KCP accepted from an address since the connection held under it was made. */
  ghost function AcceptedFrom(magic: seq<byte>, start: int, events: seq<Timed>, e: Endpoint): seq<byte> {
    if events == [] then []
    else
      var before := events[..|events| - 1];
      Extended(AcceptorRun(NewAcceptor(magic, start), before), events[|events| - 1], e,
               AcceptedFrom(magic, start, before, e))
  }

  lemma {:induction false} StepAccounts(a: Acceptor, ev: Timed, e: Endpoint, soFar: seq<byte>)
    requires Entries(a)
    requires e in a.conns ==> Stream(a.conns[e]) == soFar
    ensures e in AcceptorStep(a, ev).conns ==> Stream(AcceptorStep(a, ev).conns[e]) == Extended(a, ev, e, soFar)
  {
    if Enabled(a, ev.event) {
      match ev.event
      case AsyncAccept(op) =>
      case Datagram(from, data, input) =>
        if e in a.conns {
          DatagramAccounts(a, from, data, input, e);
        }
      case RunHandshake(i) => HandshakeAccounts(a, i, ev.at, e);
      case RunSweep(next) => SweepAccounts(a, ev.at, next, e);
      case OnConnection(f, event) =>
        if f == e {
          EntryAccounts(e, a.conns[e], event);
          assert soFar + [] == soFar;
        }
    }
  }

  lemma {:induction false} DatagramAccounts(a: Acceptor, from: Endpoint, data: seq<byte>, input: InputResult,
                                            e: Endpoint)
    requires Entries(a) && !Halted(a) && e in a.conns
    ensures var r := OnDatagram(a, from, data, input);
            && e in r.conns
            && Stream(r.conns[e])
               == if from == e then Stream(a.conns[e]) + AcceptedBy(Receive(data, a.now, input))
                  else Stream(a.conns[e])
  {
    EntryAccounts(e, a.conns[e], Receive(data, a.now, input));
    DatagramIsStep(a, from, data, input);
    assert Stream(a.conns[e]) + [] == Stream(a.conns[e]);
  }

  lemma {:induction false} SweepAccounts(a: Acceptor, now: int, next: map<Endpoint, int>, e: Endpoint)
    ensures var r := Sweep(a, now, next);
            e in r.conns ==> e in a.conns && Stream(r.conns[e]) == Stream(a.conns[e])
  {
  }

  lemma {:induction false} EntryAccounts(e: Endpoint, c: Conn, event: Event)
    requires Entry(e, c) && !c.thrown
    ensures Stream(Step(c, event)) == Stream(c) + AcceptedBy(event)
  {
    StepIsStable(c, event);
  }

  lemma {:induction false} HandshakeAccounts(a: Acceptor, i: nat, clock: int, e: Endpoint)
    requires Entries(a) && !Halted(a) && i < |a.spawned| && a.accepts != []
    ensures var r := Handshake(a, i, clock);
            e in r.conns ==>
              Stream(r.conns[e]) == if e in a.conns && (a.spawned[i].from != e || a.conns[e].state == Idle)
                                    then Stream(a.conns[e]) else []
  {
    var h := a.spawned[i];
    AnsweringIsEntry(a, h, clock);
    FreshIsStable(Identity(true, h.conv, h.from), clock);
    RunScriptKeeps(Answering(a, h, clock), a.accepts[0].script);
  }

  /** No byte strays between connections: each has what KCP accepted from its address since it was made. */
  lemma {:induction false} BytesStayWithTheirConnection(magic: seq<byte>, start: int, events: seq<Timed>, e: Endpoint)
    ensures var a := AcceptorRun(NewAcceptor(magic, start), events);
            e in a.conns ==>
              DeliveredBytes(a.conns[e].history.delivered) + QueueBytes(a.conns[e].kcp.queue)
              == AcceptedFrom(magic, start, events, e)
    decreases |events|
  {
    if events != [] {
      var k := |events| - 1;
      BytesStayWithTheirConnection(magic, start, events[..k], e);
      RunKeepsInv(NewAcceptor(magic, start), events[..k]);
      StepAccounts(AcceptorRun(NewAcceptor(magic, start), events[..k]), events[k], e,
                   AcceptedFrom(magic, start, events[..k], e));
    }
  }

  /** The answer names the entry's own conversation; an idle entry is kept, any other is replaced. */
  lemma {:induction false} HandshakeOutcome(a: Acceptor, i: nat, clock: int)
    requires Entries(a) && !Halted(a) && i < |a.spawned| && a.accepts != []
    ensures var h := a.spawned[i];
            var r := Handshake(a, i, clock);
            && h.from in r.conns && r.conns[h.from].state == Idle && !Halted(r)
            && r.conns[h.from].id.endpoint == h.from
            && r.sent == a.sent + [Frame(h.from, ResponseFrame(r.conns[h.from].id.conv))]
            && (h.from in a.conns && a.conns[h.from].state == Idle
                ==> r.conns[h.from] == RunScript(a.conns[h.from], a.accepts[0].script)
                    && r.conns[h.from].id == a.conns[h.from].id)
            && (!(h.from in a.conns && a.conns[h.from].state == Idle) ==> r.conns[h.from].id.conv == h.conv)
            && HandshakeStamps(a, h, clock, r.conns[h.from])
            && HandshakeHandles(a, i, r)
            && (forall e | e in a.conns && e != h.from :: e in r.conns && r.conns[e] == a.conns[e])
            && (if h.from in a.conns && a.conns[h.from].state != Idle
                then |r.retired| == |a.retired| + 1
                     && Left(r, h.from, a.conns[h.from]) && Aborted(r, h.from, a.conns[h.from])
                else r.retired == a.retired)
  {
    HandshakeParts(a, i, clock);
    var h := a.spawned[i];
    HandshakeMakes(a, i, clock);
    SpawnedWithout(a.spawned, i, a.spawned[..i] + a.spawned[i + 1..]);
  }

  /** The connection the handshake leaves under the address. */
  lemma {:induction false} HandshakeMakes(a: Acceptor, i: nat, clock: int)
    requires Entries(a) && !Halted(a) && i < |a.spawned| && a.accepts != []
    ensures var h := a.spawned[i];
            var r := Handshake(a, i, clock);
            && r.conns == a.conns[h.from := RunScript(Answering(a, h, clock), a.accepts[0].script)]
            && Entry(h.from, r.conns[h.from]) && !r.conns[h.from].thrown && r.conns[h.from].state == Idle
            && r.conns[h.from].id == Answering(a, h, clock).id
            && HandshakeStamps(a, h, clock, r.conns[h.from])
  {
    var h := a.spawned[i];
    AnsweringIsEntry(a, h, clock);
    ScriptKeepsEntry(h.from, Answering(a, h, clock), a.accepts[0].script);
    StartsOnIdle(h.from, Answering(a, h, clock), a.accepts[0].script);
  }

  lemma {:induction false} StartsOnIdle(e: Endpoint, c: Conn, script: seq<Action>)
    requires Entry(e, c) && !c.thrown && c.state == Idle
    ensures var made := RunScript(c, script).history.initiated;
            && made == c.history.initiated + Starts(script, |c.bufs|)
            && (c.history.initiated == [] && c.bufs == [] ==> made == Starts(script, 0))
  {
    ScriptActs(c, script);
    NothingBefore(Starts(script, |c.bufs|));
  }

  lemma {:induction false} NothingBefore<T>(s: seq<T>)
    ensures [] + s == s
  {
  }

  lemma {:induction false} SpawnedWithout(s: seq<Spawned>, i: nat, r: seq<Spawned>)
    requires i < |s| && r == s[..i] + s[i + 1..]
    ensures |r| == |s| - 1
    ensures forall k | 0 <= k < |r| :: r[k] == s[if k < i then k else k + 1]
  {
  }

  /**
   * An idle connection keeps its stamp and a new one gets the clock's; and the accept handler makes its
   * calls on it.
   */
  predicate HandshakeStamps(a: Acceptor, h: Spawned, clock: int, r: Conn)
    requires a.accepts != []
  {
    var calls := a.accepts[0].script;
    if h.from in a.conns && a.conns[h.from].state == Idle then
      var c := a.conns[h.from];
      r.nowTick == c.nowTick && r.history.initiated == c.history.initiated + Starts(calls, |c.bufs|)
    else
      r.nowTick == clock && r.history.initiated == Starts(calls, 0)
  }

  /** The handshake that ran is gone and the others wait in their order; the front accept is taken. */
  predicate HandshakeHandles(a: Acceptor, i: nat, r: Acceptor)
    requires i < |a.spawned| && a.accepts != []
  {
    && |r.spawned| == |a.spawned| - 1
    && (forall k | 0 <= k < |r.spawned| :: r.spawned[k] == a.spawned[if k < i then k else k + 1])
    && r.accepts == a.accepts[1..] + a.accepts[0].again
    && |r.served| == |a.served| + 1 && r.served[|a.served|].op == a.accepts[0]
    && r.served[|a.served|].endpoint == a.spawned[i].from
    && r.now == a.now
  }

  /** Closing a connection that is replaced or swept away leaves it closed, with nothing pending. */
  lemma {:induction false} RemovedIsDrained(c: Conn, ec: ErrorCode)
    requires Stable(c) && !c.thrown && c.state != Idle && ec != NoError
    ensures var r := CloseConn(c, ec);
            && !r.thrown && r.state == Closed && r.history.disconnects == 1
            && (c.state == Opened || c.history.reason != NoError ==> r.readOp.None? && r.writeOp.None?)
            && (c.state == Opened ==> r.history.reason == ec)
            && (c.state == Opened ==> |c.history.completed| <= |r.history.completed| && PendingGets(c, r, ec))
  {
    CloseKeeps(c, ec);
    if c.state == Opened {
      ClosedGet(c, ec);
    }
  }

  /**
   * A stale open connection is closed by the sweep and its pending operations learn timed_out; one that
   * never opened is dropped as it is, without a frame; any other connection keeps its state.
   */
  lemma {:induction false} SweptOutcome(c: Conn, now: int, next: int)
    requires Stable(c) && !c.thrown
    ensures var r := Swept(c, now, next);
            && !r.thrown && r.nowTick == c.nowTick && r.id == c.id
            && Driven(c, r, now, next)
            && r.kcp.queue == c.kcp.queue && r.kcp.waitsnd == c.kcp.waitsnd
            && (c.state == Opened && now - c.nowTick > TIMEOUT_DURATION ==>
                  && r.state == Closed && r.history.reason == TimedOut && r.history.disconnects == 1
                  && r.readOp.None? && r.writeOp.None?
                  && |c.history.completed| <= |r.history.completed| && PendingGets(c, r, TimedOut))
            && (!(c.state == Opened && now - c.nowTick > TIMEOUT_DURATION) ==>
                  && r.state == c.state && r.history == c.history
                  && r.readOp == c.readOp && r.writeOp == c.writeOp && r.posted == c.posted)
  {
    StableUpdate(c, now, next);
    if c.state == Opened && now - c.nowTick > TIMEOUT_DURATION {
      ClosedGet(UpdateConn(c, now, next), TimedOut);
      CloseKeeps(UpdateConn(c, now, next), TimedOut);
    }
  }
}
