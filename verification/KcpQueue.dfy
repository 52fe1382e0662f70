/**
 * 3rd/kcp/ikcp.c as the connection sees it: the segments that have arrived in order and not been received,
 * and the count of packets not yet acknowledged. A message is one segment or several fragments, and may
 * be empty.
 */
module KcpQueue {
  import opened Common

  const RECEIVE_WINDOW := 256

  /** `frg` says how many fragments of the message are still to come; 0 marks the last. */
  datatype Segment = Segment(frg: byte, data: seq<byte>)

  function QueueBytes(q: seq<Segment>): seq<byte> {
    if q == [] then [] else q[0].data + QueueBytes(q[1..])
  }

  lemma {:induction false} QueueBytesAppend(p: seq<Segment>, q: seq<Segment>)
    ensures QueueBytes(p + q) == QueueBytes(p) + QueueBytes(q)
  {
    if p == [] {
      assert p + q == q;
    } else {
      assert (p + q)[1..] == p[1..] + q;
      QueueBytesAppend(p[1..], q);
    }
  }

  // ---------------------------------------------------------------- the message at the head

  /** All fragments have arrived, going by the count in the first one. */
  predicate Readable(q: seq<Segment>) {
    q != [] && (q[0].frg == 0 || q[0].frg as int < |q|)
  }

  /** How many segments are merged: up to the first that is marked as the last, or all. */
  function Fragments(q: seq<Segment>): (n: nat)
    ensures n <= |q| && (q != [] ==> n > 0)
  {
    if q == [] then 0 else if q[0].frg == 0 then 1 else 1 + Fragments(q[1..])
  }

  /** Only the segments within the receive window are in the queue proper; the others wait behind it. */
  function Window(q: seq<Segment>): seq<Segment> {
    q[..Min(|q|, RECEIVE_WINDOW)]
  }

  function Span(q: seq<Segment>): (n: nat)
    ensures n <= |q| && (q != [] ==> n > 0)
  {
    Fragments(Window(q))
  }

  /** A receive: a negative answer and nothing else, or the size of a message, the message and the rest. */
  datatype Receipt = Receipt(n: int, data: seq<byte>, rest: seq<Segment>)

  function Recv(q: seq<Segment>, len: nat): (r: Receipt)
    ensures r.n < 0 ==> r.rest == q && r.data == []
    ensures r.n >= 0 ==> r.n == |r.data| <= len && |r.rest| < |q|
  {
    if q == [] then Receipt(-1, [], q)
    else if !Readable(q) then Receipt(-2, [], q)
    else
      var message := QueueBytes(q[..Span(q)]);
      if |message| > len then Receipt(-3, [], q) else Receipt(|message|, message, q[Span(q)..])
  }

  /**
   * The message at the head ends at the first segment marked as the last. If all the fragments that its
   * first one announces have arrived, it is received exactly if it fits, and then it and nothing else.
   */
  lemma {:induction false} RecvIs(q: seq<Segment>, len: nat, last: nat)
    requires last < |q| && last < RECEIVE_WINDOW && q[last].frg == 0
    requires forall i | 0 <= i < last :: q[i].frg != 0
    ensures var message := QueueBytes(q[..last + 1]);
            var r := Recv(q, len);
            if q[0].frg as int < |q| && |message| <= len
            then r == Receipt(|message|, message, q[last + 1..]) else r.n < 0
  {
    FragmentsUpTo(Window(q), last);
  }

  lemma {:induction false} FragmentsUpTo(q: seq<Segment>, last: nat)
    requires last < |q| && q[last].frg == 0
    requires forall i | 0 <= i < last :: q[i].frg != 0
    ensures Fragments(q) == last + 1
  {
    if last > 0 {
      assert q[1..][last - 1] == q[last];
      FragmentsUpTo(q[1..], last - 1);
    }
  }

  /** Whatever the answer, no byte is lost. */
  lemma {:induction false} RecvTakes(q: seq<Segment>, len: nat)
    ensures Recv(q, len).data + QueueBytes(Recv(q, len).rest) == QueueBytes(q)
  {
    if Recv(q, len).n >= 0 {
      assert q == q[..Span(q)] + q[Span(q)..];
      QueueBytesAppend(q[..Span(q)], q[Span(q)..]);
    }
  }

  /** No segment is empty, so no message is. */
  predicate NoneEmpty(q: seq<Segment>) {
    forall g <- q :: g.data != []
  }

  lemma {:induction false} NoneEmptyRecv(q: seq<Segment>, len: nat)
    requires NoneEmpty(q)
    ensures Recv(q, len).n != 0 && NoneEmpty(Recv(q, len).rest)
  {
    if Recv(q, len).n >= 0 {
      var p := q[..Span(q)];
      assert p[0] in q && QueueBytes(p) == p[0].data + QueueBytes(p[1..]);
    }
  }

  // ---------------------------------------------------------------- sends and input

  /** `touched` says there has been input or a send since the last update. */
  datatype Kcp = Kcp(queue: seq<Segment>, waitsnd: nat, touched: bool)

  /** What ikcp_send answers: a rejection, or the number of packets it adds to the send queues. */
  datatype SendResult = Rejected | Queued(packets: nat)

  /** What ikcp_input does with a datagram: segments now in order, packets acknowledged. */
  datatype InputResult = InputResult(segments: seq<Segment>, acked: nat)

  function InputKcp(k: Kcp, input: InputResult): Kcp {
    Kcp(k.queue + input.segments, k.waitsnd - Min(input.acked, k.waitsnd), true)
  }
}
