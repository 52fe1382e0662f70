/**
 * Clients and the acceptor over a network that loses, duplicates and reorders datagrams: a datagram
 * once sent stays in the network and may arrive any number of times, or never.
 */
module Network {
  import opened Common
  import opened KcpQueue
  import opened ConnectionSpec
  import opened AcceptorSpec

  const RESPONSE_BUFFER := 16

  datatype Packet = ToServer(from: Endpoint, data: seq<byte>) | ToClient(to: Endpoint, data: seq<byte>)

  /** async_connect before its answer, after a good one, and after one with the wrong opcode. */
  datatype Client = Connecting(magic: seq<byte>, conv: Conv) | Connected(conn: Conn) | Refused

  datatype World = World(address: Endpoint, server: Acceptor, net: set<Packet>, clients: map<Endpoint, Client>)

  datatype WorldEvent =
    | Connect(at: Endpoint, magic: seq<byte>, conv: Conv)
    | ServerReceives(p: Packet, input: InputResult)
    | ServerActs(event: AcceptorEvent)
    | ServerSends(to: Endpoint, data: seq<byte>)
    | ClientSends(from: Endpoint, data: seq<byte>)
    | ClientReceives(p: Packet)

  datatype TimedWorld = TimedWorld(at: int, event: WorldEvent)

  /** The zero-filled buffer after a receive: longer datagrams are cut off. */
  function Received(data: seq<byte>): (r: seq<byte>)
    ensures |r| == RESPONSE_BUFFER
  {
    if |data| >= RESPONSE_BUFFER then data[..RESPONSE_BUFFER]
    else data + seq(RESPONSE_BUFFER - |data|, _ => 0)
  }

  /** async_connect from its receive on; it looks at the opcode and takes the next four bytes. */
  function ClientAnswered(server: Endpoint, data: seq<byte>, clock: int): Client {
    var buffer := Received(data);
    if buffer[0] != OPCODE_HANDSHAKE_RESPONSE then Refused
    else Connected(Step(NewConn(Identity(false, ConvAt(buffer, 1), server), clock), RunClient))
  }

  /** Established connections send data, keepalive and disconnect frames; only handshakes are opcode 1 and 2. */
  predicate Ordinary(data: seq<byte>) {
    data != [] && data[0] != OPCODE_HANDSHAKE && data[0] != OPCODE_HANDSHAKE_RESPONSE
  }

  ghost predicate Possible(w: World, e: WorldEvent) {
    match e
    case Connect(_, _, _) => true
    case ServerReceives(p, _) => p in w.net && p.ToServer?
    case ServerActs(event) => !event.Datagram? && Enabled(w.server, event)
    case ServerSends(_, data) => Ordinary(data)
    case ClientSends(_, data) => Ordinary(data)
    case ClientReceives(p) => p in w.net && p.ToClient? && p.to in w.clients && w.clients[p.to].Connecting?
  }

  ghost function WorldStep(w: World, e: TimedWorld): World {
    if !Possible(w, e.event) then w
    else
      match e.event
      case Connect(at, magic, conv) =>
        w.(clients := w.clients[at := Connecting(magic, conv)],
           net := w.net + {ToServer(at, HandshakeFrame(magic, conv))})
      case ServerReceives(p, input) =>
        w.(server := AcceptorStep(w.server, Timed(e.at, Datagram(p.from, p.data, input))))
      case ServerActs(event) =>
        var server := AcceptorStep(w.server, Timed(e.at, event));
        w.(server := server,
           net := w.net + set f | f in server.sent[|w.server.sent|..] :: ToClient(f.to, f.data))
      case ServerSends(to, data) => w.(net := w.net + {ToClient(to, data)})
      case ClientSends(from, data) => w.(net := w.net + {ToServer(from, data)})
      case ClientReceives(p) => w.(clients := w.clients[p.to := ClientAnswered(w.address, p.data, e.at)])
  }

  /** Where the server listens, and what it was started with. */
  datatype Site = Site(address: Endpoint, magic: seq<byte>, start: int)

  function NewWorld(site: Site): World {
    World(site.address, NewAcceptor(site.magic, site.start), {}, map[])
  }

  ghost function WorldRun(w: World, events: seq<TimedWorld>): World {
    if events == [] then w else WorldStep(WorldRun(w, events[..|events| - 1]), events[|events| - 1])
  }

  // ---------------------------------------------------------------- what is promised

  /** Some connect from the address used the server's magic and asked for this conversation. */
  ghost predicate Asked(magic: seq<byte>, events: seq<TimedWorld>, at: Endpoint, conv: Conv) {
    exists i | 0 <= i < |events| :: events[i].event == Connect(at, magic, conv)
  }

  /** Step i sent the address this conversation, held under the address just then, and asked for before. */
  ghost predicate AnsweredAt(site: Site, events: seq<TimedWorld>, i: nat, at: Endpoint, conv: Conv)
    requires i < |events|
  {
    var before := WorldRun(NewWorld(site), events[..i]).server;
    var after := WorldRun(NewWorld(site), events[..i + 1]).server;
    && after.sent == before.sent + [Frame(at, ResponseFrame(conv))]
    && at in after.conns && after.conns[at].id.conv == conv && after.conns[at].state == Idle
    && Asked(site.magic, events[..i], at, conv)
  }

  ghost predicate Answered(site: Site, events: seq<TimedWorld>, at: Endpoint, conv: Conv) {
    exists i: nat | i < |events| :: AnsweredAt(site, events, i, at, conv)
  }
}
