/** include/kcp.hpp's acceptor, with its queue and map updated in place, refining AcceptorSpec. */
module AcceptorModel {
  import opened Common
  import opened KcpQueue
  import opened ConnectionSpec
  import Spec = AcceptorSpec

  class Acceptor {
    const magic: seq<byte>
    var now: int
    var acceptOps: seq<Spec.AcceptOp>
    var connections: map<Endpoint, Conn>
    var spawned: seq<Spec.Spawned>
    var sent: seq<Spec.Frame>
    ghost var pushed: seq<Spec.AcceptOp>
    ghost var served: seq<Spec.Served>
    ghost var retired: seq<map<Endpoint, Spec.Retired>>

    ghost function Abs(): Spec.Acceptor
      reads this
    {
      Spec.Acceptor(now, magic, acceptOps, connections, spawned, sent, pushed, served, retired)
    }

    constructor (magic: seq<byte>, clock: int)
      ensures Abs() == Spec.NewAcceptor(magic, clock)
    {
      this.magic := magic;
      now, acceptOps, connections, spawned, sent := clock, [], map[], [], [];
      pushed, served, retired := [], [], [];
    }

    method AsyncAccept(op: Spec.AcceptOp)
      modifies this
      ensures Abs() == Spec.PushAccepts(old(Abs()), [op])
    {
      acceptOps := acceptOps + [op];
      pushed := pushed + [op];
    }

    /** One datagram of do_receive's loop. */
    method OnDatagram(from: Endpoint, data: seq<byte>, input: InputResult)
      modifies this
      ensures Abs() == Spec.OnDatagram(old(Abs()), from, data, input)
    {
      if data == [] || data[0] >= OPCODE_MAX {
        return;
      }
      if data[0] == OPCODE_HANDSHAKE {
        if |data| == 1 + |magic| + Spec.CONV_SIZE && data[1..1 + |magic|] == magic {
          spawned := spawned + [Spec.Spawned(Spec.ConvAt(data, 1 + |magic|), from)];
        }
      } else if from in connections {
        connections := connections[from := OnReceive(connections[from], data, now, input)];
      }
    }

    /** handshark, resumed; it takes the front of the accept queue without asking whether there is one. */
    method RunHandshake(i: nat, clock: int)
      requires i < |spawned| && acceptOps != []
      modifies this
      ensures Abs() == Spec.Handshake(old(Abs()), i, clock)
    {
      var h := spawned[i];
      spawned := spawned[..i] + spawned[i + 1..];
      var c, replaced := FindOrReplace(h, clock);
      retired := retired + replaced;
      sent := sent + [Spec.Frame(h.from, Spec.ResponseFrame(c.id.conv))];
      var op := acceptOps[0];
      acceptOps := acceptOps[1..];
      served := served + [Spec.Served(op, h.from, c.id.conv)];
      connections := connections[h.from := RunScript(c, op.script)];
      acceptOps := acceptOps + op.again;
      pushed := pushed + op.again;
    }

    /** The idle connection already under the address, or a new one in place of what is there, closed. */
    method FindOrReplace(h: Spec.Spawned, clock: int)
      returns (c: Conn, replaced: seq<map<Endpoint, Spec.Retired>>)
      modifies this`connections
      ensures c == Spec.Answering(old(Abs()), h, clock)
      ensures connections == old(connections)[h.from := c]
      ensures replaced == Spec.Replaced(old(Abs()), h)
    {
      replaced := [];
      if h.from in connections {
        if connections[h.from].state == Idle {
          c := connections[h.from];
          return;
        }
        var closed := CloseConn(connections[h.from], OperationAborted);
        replaced := [map[h.from := Spec.Retired(connections[h.from], closed)]];
        connections := connections - {h.from};
      }
      c := NewConn(Identity(true, h.conv, h.from), clock);
      connections := connections[h.from := c];
    }

    /** `erased` is what became of the entries that are gone. */
    method Sweep(clock: int, next: map<Endpoint, int>) returns (erased: map<Endpoint, Spec.Retired>)
      modifies this
      ensures Abs() == Spec.Sweep(old(Abs()), clock, next)
      ensures erased == Spec.Erased(old(connections), clock, next)
    {
      now := clock;
      erased := SweepEntries(next);
      AllVisited(old(connections), connections, erased, clock, next);
      retired := retired + [erased];
    }

    /**
     * The timer's loop over the map. Entries are visited in any order, each once, and one may be erased
     * while others are still to come.
     */
    method SweepEntries(next: map<Endpoint, int>) returns (erased: map<Endpoint, Spec.Retired>)
      modifies this`connections
      ensures Partway(old(connections), {}, connections, erased, now, next)
    {
      ghost var all := connections;
      var todo := connections.Keys;
      erased := map[];
      while todo != {}
        invariant Partway(all, todo, connections, erased, now, next)
        decreases todo
      {
        var e :| e in todo;
        var erase, c := Visit(connections[e], Spec.Answer(next, e));
        if erase {
          erased := erased[e := Spec.Retired(connections[e], c)];
          connections := connections - {e};
        } else {
          connections := connections[e := c];
        }
        todo := todo - {e};
      }
    }

    /** The map and the erased entries while those in `todo` are still to be visited. */
    static ghost predicate Partway(all: map<Endpoint, Conn>, todo: set<Endpoint>, left: map<Endpoint, Conn>,
                                   erased: map<Endpoint, Spec.Retired>, now: int, next: map<Endpoint, int>)
    {
      && todo <= left.Keys
      && left.Keys + erased.Keys == all.Keys
      && left.Keys !! erased.Keys
      && (forall e | e in todo :: left[e] == all[e])
      && (forall e | e in left && e !in todo ::
            !Spec.Stale(all[e], now) && left[e] == Spec.Swept(all[e], now, Spec.Answer(next, e)))
      && (forall e | e in erased ::
            && Spec.Stale(all[e], now)
            && erased[e] == Spec.Retired(all[e], Spec.Swept(all[e], now, Spec.Answer(next, e))))
    }

    static lemma {:induction false} AllVisited(all: map<Endpoint, Conn>, left: map<Endpoint, Conn>,
                                               erased: map<Endpoint, Spec.Retired>, now: int,
                                               next: map<Endpoint, int>)
      requires Partway(all, {}, left, erased, now, next)
      ensures left == Spec.Remaining(all, now, next) && erased == Spec.Erased(all, now, next)
    {
    }

    /** The body of the loop for one connection: update it, and close it if it is closed or stale. */
    method Visit(before: Conn, next: int) returns (erase: bool, c: Conn)
      ensures erase == Spec.Stale(before, now) && c == Spec.Swept(before, now, next)
    {
      c := UpdateConn(before, now, next);
      erase := c.state == Closed || now - c.nowTick > TIMEOUT_DURATION;
      if erase {
        c := CloseConn(c, if c.state == Closed then OperationAborted else TimedOut);
      }
    }
  }
}
