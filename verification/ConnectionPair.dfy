/**
 * Two connections that name each other as endpoint, and the disconnect frames between them: a frame
 * close sends is in flight until it arrives, is lost, or is copied by the network.
 */
module ConnectionPair {
  import opened Common
  import opened KcpQueue
  import opened ConnectionSpec
  import opened ConnectionLaws
  import opened ConnectionTheorems

  /** One direction: the frames under way, and what has become of the others. */
  datatype Link = Link(inFlight: nat, delivered: nat, lost: nat, copied: nat)

  const QUIET := Link(0, 0, 0, 0)

  datatype Pair = Pair(a: Conn, b: Conn, toA: Link, toB: Link)

  /** At one peer: a step of its own, or something happens to a frame on its way to it. */
  datatype PeerEvent =
    | Act(e: Event)
    | Arrive(t: int, input: InputResult)
    | Lose
    | Copy

  datatype PairEvent = AtA(p: PeerEvent) | AtB(p: PeerEvent)

  function Swapped(p: Pair): Pair {
    Pair(p.b, p.a, p.toB, p.toA)
  }

  /** The disconnect frames a step sends. */
  function Sent(s: Conn, r: Conn): nat {
    if r.history.disconnects < s.history.disconnects then 0 else r.history.disconnects - s.history.disconnects
  }

  function ActAtA(p: Pair, e: Event): Pair {
    var r := Step(p.a, e);
    p.(a := r, toB := p.toB.(inFlight := p.toB.inFlight + Sent(p.a, r)))
  }

  /** A frame that reaches a peer which has not started, or has died of an exception, is lost on it. */
  function StepAtA(p: Pair, e: PeerEvent): Pair {
    match e
    case Act(ev) => ActAtA(p, ev)
    case Arrive(t, input) =>
      var frame := Receive(DisconnectFrame(), t, input);
      if p.toA.inFlight == 0 then p
      else if Inert(p.a, frame) then
        p.(toA := p.toA.(inFlight := p.toA.inFlight - 1, lost := p.toA.lost + 1))
      else
        ActAtA(p.(toA := p.toA.(inFlight := p.toA.inFlight - 1, delivered := p.toA.delivered + 1)), frame)
    case Lose =>
      if p.toA.inFlight == 0 then p
      else p.(toA := p.toA.(inFlight := p.toA.inFlight - 1, lost := p.toA.lost + 1))
    case Copy =>
      if p.toA.inFlight == 0 then p
      else p.(toA := p.toA.(inFlight := p.toA.inFlight + 1, copied := p.toA.copied + 1))
  }

  function PairStep(p: Pair, e: PairEvent): Pair {
    match e
    case AtA(pe) => StepAtA(p, pe)
    case AtB(pe) => Swapped(StepAtA(Swapped(p), pe))
  }

  function PairRun(p: Pair, events: seq<PairEvent>): Pair {
    if events == [] then p else PairStep(PairRun(p, events[..|events| - 1]), events[|events| - 1])
  }

  function FreshPair(idA: Identity, idB: Identity, nowA: int, nowB: int): Pair {
    Pair(NewConn(idA, nowA), NewConn(idB, nowB), QUIET, QUIET)
  }

  // ---------------------------------------------------------------- the invariant

  /** Every frame sent or copied is in one place, and a peer that got one is closed. */
  ghost predicate Linked(from: Conn, link: Link, to: Conn) {
    && link.inFlight + link.delivered + link.lost == from.history.disconnects + link.copied
    && (link.delivered > 0 ==> to.state == Closed)
  }

  ghost predicate PairInv(p: Pair) {
    && Lives(p.a) && Lives(p.b)
    && Linked(p.a, p.toB, p.b)
    && Linked(p.b, p.toA, p.a)
  }

  lemma {:induction false} ActAtAKeeps(p: Pair, e: Event)
    requires PairInv(p)
    ensures PairInv(ActAtA(p, e)) && Advanced(p, ActAtA(p, e))
  {
    if !Inert(p.a, e) {
      StepIsStable(p.a, e);
    }
  }

  /** No frame is taken back, and a closed peer stays closed. */
  predicate Advanced(p: Pair, r: Pair) {
    && p.a.history.disconnects <= r.a.history.disconnects
    && p.b.history.disconnects <= r.b.history.disconnects
    && (p.a.state == Closed ==> r.a.state == Closed && (p.a.thrown ==> r.a == p.a))
    && (p.b.state == Closed ==> r.b.state == Closed && (p.b.thrown ==> r.b == p.b))
  }

  /** Delivering a frame leaves the peer it reaches closed. */
  lemma {:induction false} ArrivalCloses(s: Conn, t: int, input: InputResult)
    requires Lives(s) && !Inert(s, Receive(DisconnectFrame(), t, input))
    ensures Step(s, Receive(DisconnectFrame(), t, input)).state == Closed
  {
    var u := if s.id.isServer then s else s.(io := s.io.(receiving := false));
    QuietIsStable(s, u, RunClient);
    DisconnectFrameCloses(u, t, input);
  }

  lemma {:induction false} StepAtAKeeps(p: Pair, e: PeerEvent)
    requires PairInv(p)
    ensures PairInv(StepAtA(p, e)) && Advanced(p, StepAtA(p, e))
  {
    match e
    case Act(ev) => ActAtAKeeps(p, ev);
    case Arrive(t, input) =>
      var frame := Receive(DisconnectFrame(), t, input);
      if p.toA.inFlight > 0 && !Inert(p.a, frame) {
        StepIsStable(p.a, frame);
        ArrivalCloses(p.a, t, input);
      }
    case Lose =>
    case Copy =>
  }

  lemma {:induction false} PairRunKeeps(p: Pair, events: seq<PairEvent>)
    requires PairInv(p)
    ensures PairInv(PairRun(p, events)) && Advanced(p, PairRun(p, events))
    decreases |events|
  {
    if events != [] {
      var m := PairRun(p, events[..|events| - 1]);
      PairRunKeeps(p, events[..|events| - 1]);
      match events[|events| - 1]
      case AtA(pe) => StepAtAKeeps(m, pe);
      case AtB(pe) => StepAtAKeeps(Swapped(m), pe);
    }
  }

  // ---------------------------------------------------------------- what the peers owe each other

  /**
   * Linked peers do not answer each other's disconnects for ever. Each sends at most one frame; once
   * both are closed neither sends another, so what is in flight then can only arrive or be lost.
   */
  lemma {:induction false} DisconnectsSettle(idA: Identity, idB: Identity, nowA: int, nowB: int,
                                             before: seq<PairEvent>, after: seq<PairEvent>)
    ensures var p := PairRun(FreshPair(idA, idB, nowA, nowB), before);
            var r := PairRun(p, after);
            && r.a.history.disconnects <= 1 && r.b.history.disconnects <= 1
            && (p.a.state == Closed && p.b.state == Closed ==>
                  && r.a.history.disconnects == p.a.history.disconnects
                  && r.b.history.disconnects == p.b.history.disconnects
                  && (p.toA.inFlight == 0 && p.toB.inFlight == 0 ==> r.toA.inFlight == 0 && r.toB.inFlight == 0))
  {
    var p := PairRun(FreshPair(idA, idB, nowA, nowB), before);
    FreshPairInv(idA, idB, nowA, nowB);
    PairRunKeeps(FreshPair(idA, idB, nowA, nowB), before);
    PairRunKeeps(p, after);
    if p.a.state == Closed && p.b.state == Closed && p.toA.inFlight == 0 && p.toB.inFlight == 0 {
      SilenceStays(p, after);
    }
  }

  lemma {:induction false} FreshPairInv(idA: Identity, idB: Identity, nowA: int, nowB: int)
    ensures PairInv(FreshPair(idA, idB, nowA, nowB))
  {
    FreshIsStable(idA, nowA);
    FreshIsStable(idB, nowB);
  }

  ghost predicate Silent(p: Pair) {
    && PairInv(p)
    && p.a.state == Closed && p.b.state == Closed
    && p.toA.inFlight == 0 && p.toB.inFlight == 0
  }

  lemma {:induction false} SilenceStays(p: Pair, events: seq<PairEvent>)
    requires Silent(p)
    ensures Silent(PairRun(p, events))
    decreases |events|
  {
    if events != [] {
      SilenceStays(p, events[..|events| - 1]);
      var m := PairRun(p, events[..|events| - 1]);
      match events[|events| - 1]
      case AtA(pe) => SilentStep(m, pe);
      case AtB(pe) => SilentStep(Swapped(m), pe);
    }
  }

  lemma {:induction false} SilentStep(p: Pair, e: PeerEvent)
    requires Silent(p)
    ensures Silent(StepAtA(p, e))
  {
    StepAtAKeeps(p, e);
  }

  /**
   * A peer hears of the close exactly if its frame gets through: with nothing in flight and nothing
   * lost either way, one peer is closed when and only when the other is. A peer that died of an
   * exception while closing may have sent no frame, so it is left out.
   */
  lemma {:induction false} PeersCloseTogether(idA: Identity, idB: Identity, nowA: int, nowB: int,
                                              events: seq<PairEvent>)
    ensures var r := PairRun(FreshPair(idA, idB, nowA, nowB), events);
            && (r.toB.inFlight == 0 && r.toB.lost == 0 && !r.a.thrown ==> (r.a.state == Closed ==> r.b.state == Closed))
            && (r.toA.inFlight == 0 && r.toA.lost == 0 && !r.b.thrown ==> (r.b.state == Closed ==> r.a.state == Closed))
            && (r.toB.delivered > 0 ==> r.b.state == Closed)
            && (r.toA.delivered > 0 ==> r.a.state == Closed)
  {
    FreshPairInv(idA, idB, nowA, nowB);
    PairRunKeeps(FreshPair(idA, idB, nowA, nowB), events);
  }
}
