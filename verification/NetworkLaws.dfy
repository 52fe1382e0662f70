/** Client and server agree on the conversation, whatever the network does to their datagrams. */
module NetworkLaws {
  import opened Common
  import opened KcpQueue
  import opened ConnectionSpec
  import opened ConnectionLaws
  import opened AcceptorSpec
  import opened AcceptorLaws
  import opened Network

  // ---------------------------------------------------------------- frames can be read back

  lemma {:induction false} HandshakeReadsBack(magic: seq<byte>, sentMagic: seq<byte>, conv: Conv)
    requires IsHandshake(magic, HandshakeFrame(sentMagic, conv))
    ensures sentMagic == magic
    ensures ConvAt(HandshakeFrame(sentMagic, conv), 1 + |magic|) == conv
  {
    var data := HandshakeFrame(sentMagic, conv);
    assert data[1..1 + |sentMagic|] == sentMagic;
    var tail := data[1 + |sentMagic|..];
    assert tail == ConvBytes(conv);
    assert ConvAt(data, 1 + |sentMagic|) == Conv(tail[0], tail[1], tail[2], tail[3]);
  }

  lemma {:induction false} ResponseReadsBack(server: Endpoint, conv: Conv, clock: int)
    ensures ClientAnswered(server, ResponseFrame(conv), clock)
         == Connected(Step(NewConn(Identity(false, conv, server), clock), RunClient))
  {
  }

  // ---------------------------------------------------------------- invariant of every run

  ghost predicate Honest(site: Site, events: seq<TimedWorld>) {
    HonestWorld(site, events, WorldRun(NewWorld(site), events))
  }

  ghost predicate HonestWorld(site: Site, events: seq<TimedWorld>, w: World) {
    && w.address == site.address
    && HonestServer(site.magic, events, w.server)
    && (forall p | p in w.net :: HonestPacket(site, events, p))
    && (forall a | a in w.clients && w.clients[a].Connected? ::
          && Answered(site, events, a, w.clients[a].conn.id.conv)
          && w.clients[a].conn.id == Identity(false, w.clients[a].conn.id.conv, site.address))
  }

  ghost predicate HonestServer(magic: seq<byte>, events: seq<TimedWorld>, a: Acceptor) {
    && a.magic == magic
    && AcceptorInv(a)
    && (forall h <- a.spawned :: Asked(magic, events, h.from, h.conv))
    && (forall e | e in a.conns :: Asked(magic, events, e, a.conns[e].id.conv))
  }

  ghost predicate HonestPacket(site: Site, events: seq<TimedWorld>, p: Packet) {
    match p
    case ToServer(from, data) =>
      IsHandshake(site.magic, data) ==> Asked(site.magic, events, from, ConvAt(data, 1 + |site.magic|))
    case ToClient(to, data) =>
      data != [] && (data[0] == OPCODE_HANDSHAKE_RESPONSE ==> IsAnswer(site, events, to, data))
  }

  ghost predicate IsAnswer(site: Site, events: seq<TimedWorld>, to: Endpoint, data: seq<byte>) {
    exists conv :: data == ResponseFrame(conv) && Answered(site, events, to, conv)
  }

  // ---------------------------------------------------------------- what was asked or answered stays so

  lemma {:induction false} AskedGrows(magic: seq<byte>, events: seq<TimedWorld>, e: TimedWorld, at: Endpoint,
                                      conv: Conv)
    requires Asked(magic, events, at, conv)
    ensures Asked(magic, events + [e], at, conv)
  {
    var i :| 0 <= i < |events| && events[i].event == Connect(at, magic, conv);
    assert (events + [e])[i] == events[i];
  }

  lemma {:induction false} AnsweredGrows(site: Site, events: seq<TimedWorld>, e: TimedWorld,
                                         at: Endpoint, conv: Conv)
    requires Answered(site, events, at, conv)
    ensures Answered(site, events + [e], at, conv)
  {
    var i: nat :| i < |events| && AnsweredAt(site, events, i, at, conv);
    assert (events + [e])[..i] == events[..i] && (events + [e])[..i + 1] == events[..i + 1];
    assert AnsweredAt(site, events + [e], i, at, conv);
  }

  lemma {:induction false} PacketGrows(site: Site, events: seq<TimedWorld>, e: TimedWorld, p: Packet)
    requires HonestPacket(site, events, p)
    ensures HonestPacket(site, events + [e], p)
  {
    match p
    case ToServer(from, data) =>
      if IsHandshake(site.magic, data) {
        AskedGrows(site.magic, events, e, from, ConvAt(data, 1 + |site.magic|));
      }
    case ToClient(to, data) =>
      if data[0] == OPCODE_HANDSHAKE_RESPONSE {
        var conv :| data == ResponseFrame(conv) && Answered(site, events, to, conv);
        AnsweredGrows(site, events, e, to, conv);
      }
  }

  lemma {:induction false} ServerGrows(magic: seq<byte>, events: seq<TimedWorld>, e: TimedWorld, a: Acceptor)
    requires HonestServer(magic, events, a)
    ensures HonestServer(magic, events + [e], a)
  {
    forall h <- a.spawned ensures Asked(magic, events + [e], h.from, h.conv) {
      AskedGrows(magic, events, e, h.from, h.conv);
    }
    forall x | x in a.conns ensures Asked(magic, events + [e], x, a.conns[x].id.conv) {
      AskedGrows(magic, events, e, x, a.conns[x].id.conv);
    }
  }

  lemma {:induction false} WorldGrows(site: Site, events: seq<TimedWorld>, e: TimedWorld, w: World)
    requires HonestWorld(site, events, w)
    ensures HonestWorld(site, events + [e], w)
  {
    ServerGrows(site.magic, events, e, w.server);
    forall p | p in w.net ensures HonestPacket(site, events + [e], p) {
      PacketGrows(site, events, e, p);
    }
    forall a | a in w.clients && w.clients[a].Connected?
      ensures Answered(site, events + [e], a, w.clients[a].conn.id.conv)
    {
      AnsweredGrows(site, events, e, a, w.clients[a].conn.id.conv);
    }
  }

  // ---------------------------------------------------------------- the server's part of a step

  /** A datagram opens no entry and answers nothing; at most it spawns the handshake it carries. */
  lemma {:induction false} DatagramSpawns(a: Acceptor, at: int, from: Endpoint, data: seq<byte>, input: InputResult)
    requires Entries(a)
    ensures var r := AcceptorStep(a, Timed(at, Datagram(from, data, input)));
            && r.magic == a.magic && r.sent == a.sent && r.conns.Keys == a.conns.Keys
            && (forall e | e in r.conns :: r.conns[e].id == a.conns[e].id)
            && (r.spawned == a.spawned
                || (IsHandshake(a.magic, data)
                    && r.spawned == a.spawned + [Spawned(ConvAt(data, 1 + |a.magic|), from)]))
  {
    if !Halted(a) && from in a.conns {
      DatagramIsStep(a, from, data, input);
      StepKeepsEntry(from, a.conns[from], Receive(data, a.now, input));
    }
  }

  lemma {:induction false} DatagramStaysHonest(magic: seq<byte>, events: seq<TimedWorld>, a: Acceptor, at: int,
                                               from: Endpoint, data: seq<byte>, input: InputResult)
    requires HonestServer(magic, events, a)
    requires IsHandshake(magic, data) ==> Asked(magic, events, from, ConvAt(data, 1 + |magic|))
    ensures HonestServer(magic, events, AcceptorStep(a, Timed(at, Datagram(from, data, input))))
  {
    StepKeepsInv(a, Timed(at, Datagram(from, data, input)));
    DatagramSpawns(a, at, from, data, input);
  }

  lemma {:induction false} ActStaysHonest(magic: seq<byte>, events: seq<TimedWorld>, a: Acceptor, ev: Timed)
    requires HonestServer(magic, events, a) && !ev.event.Datagram? && Enabled(a, ev.event)
    ensures HonestServer(magic, events, AcceptorStep(a, ev))
    ensures !ev.event.RunHandshake? ==> AcceptorStep(a, ev).sent == a.sent
  {
    StepKeepsInv(a, ev);
    match ev.event
    case AsyncAccept(op) =>
    case RunHandshake(i) => HandshakeStaysHonest(magic, events, a, i, ev.at);
    case RunSweep(next) =>
      forall e | e in a.conns && !Stale(a.conns[e], ev.at)
        ensures Swept(a.conns[e], ev.at, Answer(next, e)).id == a.conns[e].id
      {
        StableUpdate(a.conns[e], ev.at, Answer(next, e));
      }
    case OnConnection(e, event) => StepIsStable(a.conns[e], event);
  }

  lemma {:induction false} HandshakeStaysHonest(magic: seq<byte>, events: seq<TimedWorld>, a: Acceptor, i: nat,
                                                clock: int)
    requires HonestServer(magic, events, a) && !Halted(a) && i < |a.spawned| && a.accepts != []
    ensures HonestServer(magic, events, Handshake(a, i, clock))
  {
    var h := a.spawned[i];
    var r := Handshake(a, i, clock);
    HandshakeKeepsInv(a, i, clock);
    HandshakeOutcome(a, i, clock);
    assert h in a.spawned;
    forall e | e in r.conns ensures Asked(magic, events, e, r.conns[e].id.conv) {
      if e != h.from {
        assert r.conns[e] == a.conns[e];
      }
    }
  }

  // ---------------------------------------------------------------- one step of the world

  lemma {:induction false} StepStaysHonest(site: Site, events: seq<TimedWorld>, e: TimedWorld)
    requires Honest(site, events)
    ensures Honest(site, events + [e])
  {
    var w := WorldRun(NewWorld(site), events);
    AppendOne(events, e);
    WorldGrows(site, events, e, w);
    if Possible(w, e.event) {
      match e.event
      case Connect(at, m, conv) => ConnectStaysHonest(site, events, e, w);
      case ServerReceives(p, input) =>
        assert HonestPacket(site, events + [e], p);
        DatagramStaysHonest(site.magic, events + [e], w.server, e.at, p.from, p.data, input);
        assert HonestWorld(site, events + [e], WorldStep(w, e));
      case ServerActs(event) => ActsStaysHonest(site, events, e, w);
      case ServerSends(to, data) =>
      case ClientSends(from, data) =>
      case ClientReceives(p) => AnswerStaysHonest(site, events + [e], e, w);
    }
  }

  lemma {:induction false} AnswerStaysHonest(site: Site, events: seq<TimedWorld>,
                                             e: TimedWorld, w: World)
    requires e.event.ClientReceives? && Possible(w, e.event) && HonestWorld(site, events, w)
    ensures HonestWorld(site, events, WorldStep(w, e))
  {
    var p := e.event.p;
    assert HonestPacket(site, events, p);
    ConnectedWasAnswered(site, events, p.to, p.data, e.at);
  }

  lemma {:induction false} ConnectedWasAnswered(site: Site, events: seq<TimedWorld>,
                                                to: Endpoint, data: seq<byte>, clock: int)
    requires HonestPacket(site, events, ToClient(to, data))
    ensures var c := ClientAnswered(site.address, data, clock);
            c.Connected? ==>
              && Answered(site, events, to, c.conn.id.conv)
              && !c.conn.id.isServer && c.conn.id.endpoint == site.address
  {
    if Received(data)[0] == OPCODE_HANDSHAKE_RESPONSE {
      assert data[0] == OPCODE_HANDSHAKE_RESPONSE;
      var conv :| data == ResponseFrame(conv) && Answered(site, events, to, conv);
      ResponseReadsBack(site.address, conv, clock);
    }
  }

  lemma {:induction false} ConnectStaysHonest(site: Site, events: seq<TimedWorld>, e: TimedWorld,
                                              w: World)
    requires e.event.Connect? && HonestWorld(site, events + [e], w)
    ensures HonestWorld(site, events + [e], WorldStep(w, e))
  {
    var data := HandshakeFrame(e.event.magic, e.event.conv);
    if IsHandshake(site.magic, data) {
      HandshakeReadsBack(site.magic, e.event.magic, e.event.conv);
      assert (events + [e])[|events|] == e;
    }
  }

  lemma {:induction false} ActsStaysHonest(site: Site, events: seq<TimedWorld>, e: TimedWorld,
                                           w: World)
    requires e.event.ServerActs? && Possible(w, e.event)
    requires w == WorldRun(NewWorld(site), events)
    requires HonestWorld(site, events, w) && HonestWorld(site, events + [e], w)
    ensures HonestWorld(site, events + [e], WorldStep(w, e))
  {
    var ev := Timed(e.at, e.event.event);
    ActStaysHonest(site.magic, events + [e], w.server, ev);
    if e.event.event.RunHandshake? {
      HandshakeAnswers(site, events, e, w);
    }
  }

  lemma {:induction false} HandshakeAnswers(site: Site, events: seq<TimedWorld>, e: TimedWorld,
                                            w: World)
    requires e.event.ServerActs? && e.event.event.RunHandshake? && Possible(w, e.event)
    requires w == WorldRun(NewWorld(site), events)
    requires HonestServer(site.magic, events, w.server)
    ensures var server := AcceptorStep(w.server, Timed(e.at, e.event.event));
            && w.server.sent <= server.sent
            && forall f <- server.sent[|w.server.sent|..] ::
                 HonestPacket(site, events + [e], ToClient(f.to, f.data))
  {
    var h := w.server.spawned[e.event.event.i];
    var server := AcceptorStep(w.server, Timed(e.at, e.event.event));
    HandshakeOutcome(w.server, e.event.event.i, e.at);
    HandshakeStaysHonest(site.magic, events, w.server, e.event.event.i, e.at);
    var conv := server.conns[h.from].id.conv;
    assert server.sent[|w.server.sent|..] == [Frame(h.from, ResponseFrame(conv))];
    AnswerIsHonest(site, events, e, w, server, h.from, conv);
  }

  lemma {:induction false} AnswerIsHonest(site: Site, events: seq<TimedWorld>, e: TimedWorld,
                                          w: World,
                       server: Acceptor, to: Endpoint, conv: Conv)
    requires w == WorldRun(NewWorld(site), events) && server == WorldStep(w, e).server
    requires server.sent == w.server.sent + [Frame(to, ResponseFrame(conv))]
    requires to in server.conns && server.conns[to].id.conv == conv && server.conns[to].state == Idle
    requires Asked(site.magic, events, to, conv)
    ensures HonestPacket(site, events + [e], ToClient(to, ResponseFrame(conv)))
  {
    AppendOne(events, e);
    assert (events + [e])[..|events|] == events && (events + [e])[..|events| + 1] == events + [e];
    assert AnsweredAt(site, events + [e], |events|, to, conv);
    assert Answered(site, events + [e], to, conv);
    assert IsAnswer(site, events + [e], to, ResponseFrame(conv));
  }

  lemma {:induction false} RunIsHonest(site: Site, events: seq<TimedWorld>)
    ensures Honest(site, events)
    decreases |events|
  {
    if events != [] {
      var before, last := events[..|events| - 1], events[|events| - 1];
      assert before + [last] == events;
      RunIsHonest(site, before);
      StepStaysHonest(site, before, last);
    }
  }

  /**
   * A connected client carries the conversation of the server connection that was held under the
   * client's address when its answer was sent, and a connect from that address had asked for it.
   */
  lemma {:induction false} HandshakeAgreement(site: Site, events: seq<TimedWorld>, client: Endpoint)
    requires var w := WorldRun(NewWorld(site), events);
             client in w.clients && w.clients[client].Connected?
    ensures var w := WorldRun(NewWorld(site), events);
            && w.clients[client].conn.id.endpoint == site.address
            && exists i: nat | i < |events| ::
                 AnsweredAt(site, events, i, client, w.clients[client].conn.id.conv)
  {
    RunIsHonest(site, events);
  }

  // ---------------------------------------------------------------- and it can succeed

  /** The request, delivered to an acceptor that has not halted, spawns one more handshake. */
  lemma {:induction false} RequestArrives(w: World, at: Endpoint, conv: Conv, input: InputResult, sent: int,
                                          received: int)
    requires !Halted(w.server)
    ensures var magic := w.server.magic;
            var request := ToServer(at, HandshakeFrame(magic, conv));
            var w1 := WorldStep(w, TimedWorld(sent, Connect(at, magic, conv)));
            var w2 := WorldStep(w1, TimedWorld(received, ServerReceives(request, input)));
            && w2.server == w.server.(spawned := w.server.spawned + [Spawned(conv, at)])
            && w2.clients == w.clients[at := Connecting(magic, conv)] && w2.address == w.address
  {
    var magic := w.server.magic;
    HandshakeIsRead(magic, conv);
    var w1 := WorldStep(w, TimedWorld(sent, Connect(at, magic, conv)));
    assert w1.server == w.server && ToServer(at, HandshakeFrame(magic, conv)) in w1.net;
  }

  lemma {:induction false} HandshakeIsRead(magic: seq<byte>, conv: Conv)
    ensures IsHandshake(magic, HandshakeFrame(magic, conv))
    ensures ConvAt(HandshakeFrame(magic, conv), 1 + |magic|) == conv
  {
    assert HandshakeFrame(magic, conv)[1..1 + |magic|] == magic;
    HandshakeReadsBack(magic, magic, conv);
  }

  /** The conversation the acceptor will answer with: that of an idle entry, or the one asked for. */
  function Granted(a: Acceptor, at: Endpoint, conv: Conv): Conv {
    if at in a.conns && a.conns[at].state == Idle then a.conns[at].id.conv else conv
  }

  /** The handshake is served and answered: the entry and the frame name the conversation granted. */
  lemma {:induction false} HandshakeServed(w: World, i: nat, at: Endpoint, conv: Conv, clock: int, r: World)
    requires Entries(w.server) && !Halted(w.server) && w.server.accepts != []
    requires i < |w.server.spawned| && w.server.spawned[i] == Spawned(conv, at)
    requires r == WorldStep(w, TimedWorld(clock, ServerActs(RunHandshake(i))))
    ensures var granted := Granted(w.server, at, conv);
            && r.clients == w.clients && r.address == w.address
            && ToClient(at, ResponseFrame(granted)) in r.net
            && at in r.server.conns && r.server.conns[at].state == Idle
            && r.server.conns[at].id.conv == granted && r.server.conns[at].id.endpoint == at
            && r.server.served == w.server.served + [Served(w.server.accepts[0], at, granted)]
  {
    HandshakeOutcome(w.server, i, clock);
    var answer := Frame(at, ResponseFrame(Granted(w.server, at, conv)));
    assert r.server.sent[|w.server.sent|..] == [answer];
    assert answer in r.server.sent[|w.server.sent|..];
  }

  /** One connect, its request delivered, the handshake run, and the answer delivered. */
  function Exchange(a: Acceptor, at: Endpoint, conv: Conv, input: InputResult, clocks: Clocks): seq<TimedWorld> {
    [TimedWorld(clocks.sent, Connect(at, a.magic, conv)),
     TimedWorld(clocks.received, ServerReceives(ToServer(at, HandshakeFrame(a.magic, conv)), input)),
     TimedWorld(clocks.served, ServerActs(RunHandshake(|a.spawned|))),
     TimedWorld(clocks.answered, ClientReceives(ToClient(at, ResponseFrame(Granted(a, at, conv)))))]
  }

  datatype Clocks = Clocks(sent: int, received: int, served: int, answered: int)

  lemma {:induction false} RunOneMore(w: World, events: seq<TimedWorld>, e: TimedWorld)
    ensures WorldRun(w, events + [e]) == WorldStep(WorldRun(w, events), e)
  {
    AppendOne(events, e);
  }

  lemma {:induction false} FourMore<T>(s: seq<T>, a: T, b: T, c: T, d: T)
    ensures s + [a, b, c, d] == s + [a] + [b] + [c] + [d]
  {
    var r := s + [a] + [b] + [c] + [d];
    assert r[..|s|] == s;
    assert r[|s|] == a && r[|s| + 1] == b && r[|s| + 2] == c && r[|s| + 3] == d;
  }

  lemma {:induction false} RunFourMore(w: World, events: seq<TimedWorld>, e1: TimedWorld, e2: TimedWorld,
                                       e3: TimedWorld, e4: TimedWorld)
    ensures WorldRun(w, events + [e1, e2, e3, e4])
         == WorldStep(WorldStep(WorldStep(WorldStep(WorldRun(w, events), e1), e2), e3), e4)
  {
    FourMore(events, e1, e2, e3, e4);
    RunOneMore(w, events, e1);
    RunOneMore(w, events + [e1], e2);
    RunOneMore(w, events + [e1] + [e2], e3);
    RunOneMore(w, events + [e1] + [e2] + [e3], e4);
  }

  /**
   * In whatever state the world is, as long as an accept is queued and nothing has thrown: if the two
   * datagrams of a connect get through, client and server entry carry the same conversation, and it is
   * the one asked for exactly if no idle entry for another one was there.
   */
  lemma {:induction false} ConnectSucceeds(site: Site, events: seq<TimedWorld>, at: Endpoint,
                                           conv: Conv, input: InputResult, clocks: Clocks)
    requires var a := WorldRun(NewWorld(site), events).server; !Halted(a) && a.accepts != []
    ensures var a := WorldRun(NewWorld(site), events).server;
            var w := WorldRun(NewWorld(site), events + Exchange(a, at, conv, input, clocks));
            && at in w.clients && w.clients[at].Connected? && w.clients[at].conn.state == Opened
            && at in w.server.conns && w.server.conns[at].state == Idle
            && w.clients[at].conn.id.conv == w.server.conns[at].id.conv
            && w.clients[at].conn.id.endpoint == site.address && w.server.conns[at].id.endpoint == at
            && w.clients[at].conn.nowTick == clocks.answered && w.clients[at].conn.io == STARTED
            && (w.clients[at].conn.id.conv == conv
                <==> !(at in a.conns && a.conns[at].state == Idle && a.conns[at].id.conv != conv))
            && w.server.served == a.served + [Served(a.accepts[0], at, w.clients[at].conn.id.conv)]
  {
    var w0 := WorldRun(NewWorld(site), events);
    RunIsHonest(site, events);
    var es := Exchange(w0.server, at, conv, input, clocks);
    RunFourMore(NewWorld(site), events, es[0], es[1], es[2], es[3]);
    assert es == [es[0], es[1], es[2], es[3]];
    RequestArrives(w0, at, conv, input, clocks.sent, clocks.received);
    var w2 := WorldStep(WorldStep(w0, es[0]), es[1]);
    SpawnKeepsInv(w0.server, Spawned(conv, at));
    HandshakeServed(w2, |w0.server.spawned|, at, conv, clocks.served, WorldStep(w2, es[2]));
    AnswerConnects(WorldStep(w2, es[2]), at, Granted(w0.server, at, conv), clocks.answered);
  }

  lemma {:induction false} SpawnKeepsInv(a: Acceptor, h: Spawned)
    requires Entries(a) && !Halted(a)
    ensures var r := a.(spawned := a.spawned + [h]); Entries(r) && !Halted(r)
  {
  }

  lemma {:induction false} AnswerConnects(w: World, at: Endpoint, conv: Conv, clock: int)
    requires at in w.clients && w.clients[at].Connecting? && ToClient(at, ResponseFrame(conv)) in w.net
    ensures var r := WorldStep(w, TimedWorld(clock, ClientReceives(ToClient(at, ResponseFrame(conv)))));
            && r.server == w.server
            && at in r.clients && r.clients[at].Connected?
            && r.clients[at].conn.state == Opened && r.clients[at].conn.id == Identity(false, conv, w.address)
            && r.clients[at].conn.nowTick == clock && r.clients[at].conn.io == STARTED
  {
    ResponseReadsBack(at, conv, clock);
  }
}
