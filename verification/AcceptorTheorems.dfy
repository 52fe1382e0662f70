/** The promises of the acceptor's sweep and handshakes, stated over every run. */
module AcceptorTheorems {
  import opened Common
  import opened KcpQueue
  import opened ConnectionSpec
  import opened ConnectionLaws
  import opened ConnectionTheorems
  import opened ConnectionOutcomes
  import opened AcceptorSpec
  import opened AcceptorLaws

  // ---------------------------------------------------------------- connections not heard from yet

  /** When the connection held under an address was made: the last handshake that found no idle one. */
  ghost function MadeAt(magic: seq<byte>, start: int, events: seq<Timed>, e: Endpoint): Option<int> {
    if events == [] then None
    else
      var before := events[..|events| - 1];
      NextMade(AcceptorRun(NewAcceptor(magic, start), before), events[|events| - 1], e,
               MadeAt(magic, start, before, e))
  }

  ghost function NextMade(a: Acceptor, ev: Timed, e: Endpoint, made: Option<int>): Option<int> {
    if Enabled(a, ev.event) && ev.event.RunHandshake? && a.spawned[ev.event.i].from == e
       && !(e in a.conns && a.conns[e].state == Idle)
    then Some(ev.at) else made
  }

  predicate IdleStamped(c: Conn, made: Option<int>) {
    c.state == Idle ==> made == Some(c.nowTick)
  }

  lemma {:induction false} StepKeepsIdleStamp(a: Acceptor, ev: Timed, e: Endpoint, made: Option<int>)
    requires Entries(a)
    requires e in a.conns ==> IdleStamped(a.conns[e], made)
    ensures var r := AcceptorStep(a, ev); e in r.conns ==> IdleStamped(r.conns[e], NextMade(a, ev, e, made))
  {
    if Enabled(a, ev.event) {
      match ev.event
      case AsyncAccept(op) =>
      case Datagram(from, data, input) =>
        if e in a.conns {
          DatagramKeepsIdleStamp(a, from, data, input, e);
        }
      case RunHandshake(i) => HandshakeMakes(a, i, ev.at);
      case RunSweep(next) => SweepKeepsState(a, ev.at, next, e);
      case OnConnection(f, event) => LocalKeepsIdleStamp(f, a.conns[f], event);
    }
  }

  lemma {:induction false} DatagramKeepsIdleStamp(a: Acceptor, from: Endpoint, data: seq<byte>, input: InputResult,
                                                  e: Endpoint)
    requires Entries(a) && !Halted(a) && e in a.conns
    ensures var r := OnDatagram(a, from, data, input);
            e in r.conns && (r.conns[e].state == Idle ==> r.conns[e] == a.conns[e])
  {
    assert Entry(e, a.conns[e]);
    DatagramIsStep(a, from, data, input);
    SignOfLife(a.conns[e], data, a.now, input);
  }

  lemma {:induction false} SweepKeepsState(a: Acceptor, now: int, next: map<Endpoint, int>, e: Endpoint)
    ensures var r := Sweep(a, now, next);
            e in r.conns ==>
              e in a.conns && r.conns[e].state == a.conns[e].state && r.conns[e].nowTick == a.conns[e].nowTick
  {
  }

  lemma {:induction false} LocalKeepsIdleStamp(e: Endpoint, c: Conn, event: Event)
    requires Entry(e, c) && !c.thrown && Local(event)
    ensures Step(c, event).nowTick == c.nowTick && (Step(c, event).state == Idle ==> c.state == Idle)
  {
    StepKeepsEntry(e, c, event);
  }

  lemma {:induction false} RunKeepsIdleStamp(magic: seq<byte>, start: int, events: seq<Timed>, e: Endpoint)
    ensures var a := AcceptorRun(NewAcceptor(magic, start), events);
            e in a.conns ==> IdleStamped(a.conns[e], MadeAt(magic, start, events, e))
    decreases |events|
  {
    if events != [] {
      var k := |events| - 1;
      RunKeepsIdleStamp(magic, start, events[..k], e);
      RunKeepsInv(NewAcceptor(magic, start), events[..k]);
      StepKeepsIdleStamp(AcceptorRun(NewAcceptor(magic, start), events[..k]), events[k], e,
                         MadeAt(magic, start, events[..k], e));
    }
  }

  /**
   * A connection no one has been heard on lives for 30 s from the handshake that made it, however often
   * its handshake is repeated: a sweep up to then leaves it as it is, and the first one after erases it.
   */
  lemma {:induction false} IdleTimeout(magic: seq<byte>, start: int, events: seq<Timed>, e: Endpoint,
                                       at: int, next: map<Endpoint, int>)
    requires var a := AcceptorRun(NewAcceptor(magic, start), events);
             !Halted(a) && e in a.conns && a.conns[e].state == Idle
    ensures var a := AcceptorRun(NewAcceptor(magic, start), events);
            var swept := AcceptorRun(NewAcceptor(magic, start), events + [Timed(at, RunSweep(next))]);
            var made := MadeAt(magic, start, events, e);
            && made.Some?
            && (e in swept.conns <==> at <= made.value + TIMEOUT_DURATION)
            && (e in swept.conns ==> swept.conns[e].state == Idle && swept.conns[e].id == a.conns[e].id)
  {
    AppendOne(events, Timed(at, RunSweep(next)));
    RunKeepsIdleStamp(magic, start, events, e);
  }

  // ---------------------------------------------------------------- every sweep

  /**
   * A sweep keeps exactly the connections that are neither closed nor silent for more than 30 s by their
   * stamp, and drives KCP on each: none is left with anything unsent, and each that was due comes due
   * again when KCP says.
   */
  lemma {:induction false} SweepOutcome(magic: seq<byte>, start: int, events: seq<Timed>, e: Endpoint,
                                        at: int, next: map<Endpoint, int>)
    requires !Halted(AcceptorRun(NewAcceptor(magic, start), events))
    ensures var a := AcceptorRun(NewAcceptor(magic, start), events);
            var swept := AcceptorRun(NewAcceptor(magic, start), events + [Timed(at, RunSweep(next))]);
            && (e in swept.conns <==>
                  e in a.conns && a.conns[e].state != Closed && at - a.conns[e].nowTick <= TIMEOUT_DURATION)
            && (e in swept.conns ==>
                  && swept.conns[e].state == a.conns[e].state
                  && Driven(a.conns[e], swept.conns[e], at, if e in next then next[e] else 0)
                  && (at >= 0 ==> !swept.conns[e].kcp.touched))
            && swept.now == at && swept.spawned == a.spawned && swept.accepts == a.accepts && swept.sent == a.sent
  {
    AppendOne(events, Timed(at, RunSweep(next)));
    RunKeepsInv(NewAcceptor(magic, start), events);
    var a := AcceptorRun(NewAcceptor(magic, start), events);
    if e in a.conns {
      assert Entry(e, a.conns[e]);
      SweptOutcome(a.conns[e], at, Answer(next, e));
    }
  }

  // ---------------------------------------------------------------- every handshake asked for

  /** What one step spawns, and what it runs. */
  ghost function SpawnedBy(a: Acceptor, ev: Timed): seq<Spawned> {
    if !Halted(a) && ev.event.Datagram? && IsHandshake(a.magic, ev.event.data)
    then [Spawned(ConvAt(ev.event.data, 1 + |a.magic|), ev.event.from)] else []
  }

  ghost function RunBy(a: Acceptor, ev: Timed): seq<Spawned> {
    if Enabled(a, ev.event) && ev.event.RunHandshake? then [a.spawned[ev.event.i]] else []
  }

  /** The handshakes asked for over a run, in order, and those that have run. */
  ghost function Requests(a: Acceptor, events: seq<Timed>): seq<Spawned> {
    if events == [] then []
    else
      var before := events[..|events| - 1];
      Requests(a, before) + SpawnedBy(AcceptorRun(a, before), events[|events| - 1])
  }

  ghost function Handled(a: Acceptor, events: seq<Timed>): seq<Spawned> {
    if events == [] then []
    else
      var before := events[..|events| - 1];
      Handled(a, before) + RunBy(AcceptorRun(a, before), events[|events| - 1])
  }

  /** Each request is in one place, and the k-th that ran is the k-th served. */
  predicate RequestsAccounted(asked: seq<Spawned>, ran: seq<Spawned>, spawned: seq<Spawned>, served: seq<Served>) {
    && multiset(asked) == multiset(ran) + multiset(spawned)
    && |served| == |ran|
    && forall k | 0 <= k < |ran| :: served[k].endpoint == ran[k].from
  }

  /** Every handshake asked for with the acceptor's magic has run once or still waits, and no other runs. */
  lemma {:induction false} HandshakesRunOnce(magic: seq<byte>, start: int, events: seq<Timed>)
    ensures var made := NewAcceptor(magic, start);
            var a := AcceptorRun(made, events);
            && a.magic == magic
            && RequestsAccounted(Requests(made, events), Handled(made, events), a.spawned, a.served)
    decreases |events|
  {
    if events != [] {
      var k := |events| - 1;
      var a0 := NewAcceptor(magic, start);
      HandshakesRunOnce(magic, start, events[..k]);
      var a := AcceptorRun(a0, events[..k]);
      StepSpawns(a, events[k]);
      MoreAccounted(Requests(a0, events[..k]), Handled(a0, events[..k]), a.spawned, a.served,
                    SpawnedBy(a, events[k]), RunBy(a, events[k]),
                    AcceptorStep(a, events[k]).spawned, AcceptorStep(a, events[k]).served);
    }
  }

  lemma {:induction false} MoreAccounted(asked: seq<Spawned>, ran: seq<Spawned>, spawned: seq<Spawned>,
                                         served: seq<Served>, asks: seq<Spawned>, runs: seq<Spawned>,
                                         spawned': seq<Spawned>, served': seq<Served>)
    requires RequestsAccounted(asked, ran, spawned, served)
    requires multiset(spawned) + multiset(asks) == multiset(spawned') + multiset(runs)
    requires served <= served' && |served'| == |served| + |runs| && |runs| <= 1
    requires runs != [] ==> served'[|served|].endpoint == runs[0].from
    ensures RequestsAccounted(asked + asks, ran + runs, spawned', served')
  {
    assert multiset(asked + asks) == multiset(asked) + multiset(asks);
    assert multiset(ran + runs) == multiset(ran) + multiset(runs);
    forall h: Spawned
      ensures multiset(asked + asks)[h] == (multiset(ran + runs) + multiset(spawned'))[h]
    {
      var before, after := multiset(spawned) + multiset(asks), multiset(spawned') + multiset(runs);
      assert before[h] == after[h];
    }
    forall k | 0 <= k < |ran + runs| ensures served'[k].endpoint == (ran + runs)[k].from {
      if k < |ran| {
        assert served'[k] == served[k];
      }
    }
  }

  lemma {:induction false} StepSpawns(a: Acceptor, ev: Timed)
    ensures var r := AcceptorStep(a, ev);
            && multiset(a.spawned) + multiset(SpawnedBy(a, ev)) == multiset(r.spawned) + multiset(RunBy(a, ev))
            && |r.served| == |a.served| + |RunBy(a, ev)|
            && a.served <= r.served
            && (RunBy(a, ev) != [] ==> r.served[|a.served|].endpoint == RunBy(a, ev)[0].from)
            && r.magic == a.magic
  {
    if Enabled(a, ev.event) && ev.event.RunHandshake? {
      TakenOut(a.spawned, ev.event.i);
    }
  }

  lemma {:induction false} TakenOut<T>(s: seq<T>, i: nat)
    requires i < |s|
    ensures multiset(s) == multiset(s[..i] + s[i + 1..]) + multiset([s[i]])
  {
    assert s == s[..i] + ([s[i]] + s[i + 1..]);
  }
}
