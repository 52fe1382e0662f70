/** The parts of 3rd/kcp/ikcp.c that the connection calls, with their queues updated in place. */
module KcpModel {
  import opened Common
  import opened KcpQueue

  class KcpControl {
    /** The receive queue, and the segments that are in order but do not fit into it. */
    var queue: seq<Segment>
    var backlog: seq<Segment>
    var waitsnd: nat
    ghost var touched: bool

    ghost predicate Valid()
      reads this
    {
      |queue| <= RECEIVE_WINDOW && (backlog != [] ==> |queue| == RECEIVE_WINDOW)
    }

    ghost function View(): Kcp
      reads this
    {
      Kcp(queue + backlog, waitsnd, touched)
    }

    constructor ()
      ensures Valid() && View() == Kcp([], 0, false)
    {
      queue, backlog, waitsnd, touched := [], [], 0, false;
    }

    /** The size of the message at the head, or a negative answer while fragments are missing. */
    method PeekSize() returns (length: int)
      requires Valid()
      ensures if Readable(View().queue)
              then length == |QueueBytes(View().queue[..Span(View().queue)])| else length < 0
    {
      WindowIsQueue(queue, backlog);
      if queue == [] {
        return -1;
      }
      if queue[0].frg == 0 {
        OneFragment(queue);
        return |queue[0].data|;
      }
      if |queue| < queue[0].frg as int + 1 {
        return -1;
      }
      length := 0;
      var k := 0;
      while k < |queue|
        invariant 0 <= k <= |queue|
        invariant k + Fragments(queue[k..]) == Fragments(queue)
        invariant length == |QueueBytes(queue[..k])|
      {
        MergeOne(queue, k);
        length := length + |queue[k].data|;
        k := k + 1;
        if queue[k - 1].frg == 0 {
          break;
        }
      }
    }

    /** Receives a message of at most `len` bytes, or nothing and a negative answer. */
    method Recv(len: nat) returns (n: int, data: seq<byte>)
      requires Valid()
      modifies this`queue, this`backlog
      ensures Valid()
      ensures var r := KcpQueue.Recv(old(View().queue), len);
              && data == r.data
              && View() == old(View()).(queue := r.rest)
              && (n < 0 <==> r.n < 0) && (n >= 0 ==> n == r.n)
    {
      data := [];
      WindowIsQueue(queue, backlog);
      if queue == [] {
        return -1, data;
      }
      var peeked := PeekSize();
      if peeked < 0 {
        return -2, data;
      }
      if peeked > len {
        return -3, data;
      }
      data := Merge();
      n := |data|;
      Refill();
    }

    /** Takes the fragments of the head message out of the queue and joins them. */
    method Merge() returns (data: seq<byte>)
      requires queue != []
      modifies this`queue
      ensures data == QueueBytes(old(queue)[..Fragments(old(queue))])
      ensures queue == old(queue)[Fragments(old(queue))..]
    {
      ghost var q := queue;
      data := [];
      ghost var k := 0;
      while queue != []
        invariant 0 <= k <= |q| && queue == q[k..]
        invariant k + Fragments(queue) == Fragments(q)
        invariant data == QueueBytes(q[..k])
        decreases |queue|
      {
        var segment := queue[0];
        MergeOne(q, k);
        data := data + segment.data;
        queue := queue[1..];
        k := k + 1;
        if segment.frg == 0 {
          break;
        }
      }
    }

    /** Segments move up as long as there is room. */
    method Refill()
      requires |queue| <= RECEIVE_WINDOW
      modifies this`queue, this`backlog
      ensures Valid() && queue + backlog == old(queue + backlog)
    {
      while backlog != [] && |queue| < RECEIVE_WINDOW
        invariant |queue| <= RECEIVE_WINDOW
        invariant queue + backlog == old(queue + backlog)
        decreases |backlog|
      {
        MoveOne(queue, backlog);
        queue := queue + [backlog[0]];
        backlog := backlog[1..];
      }
    }

    method Send(result: SendResult) returns (n: int)
      requires Valid()
      modifies this`waitsnd, this`touched
      ensures Valid()
      ensures n < 0 <==> result.Rejected?
      ensures View() == Kcp(old(View().queue), old(waitsnd) + if result.Queued? then result.packets else 0, true)
    {
      touched := true;
      match result
      case Rejected => n := -2;
      case Queued(packets) =>
        n := 0;
        waitsnd := waitsnd + packets;
    }

    method Input(input: InputResult)
      requires Valid()
      modifies this
      ensures Valid()
      ensures View() == InputKcp(old(View()), input)
    {
      Associate(queue, backlog, input.segments);
      backlog := backlog + input.segments;
      Refill();
      waitsnd := waitsnd - Min(input.acked, waitsnd);
      touched := true;
    }

    method Update()
      requires Valid()
      modifies this`touched
      ensures Valid()
      ensures View() == old(View()).(touched := false)
    {
      touched := false;
    }
  }

  lemma {:induction false} WindowIsQueue(queue: seq<Segment>, backlog: seq<Segment>)
    requires |queue| <= RECEIVE_WINDOW && (backlog != [] ==> |queue| == RECEIVE_WINDOW)
    ensures Window(queue + backlog) == queue
    ensures Span(queue + backlog) == Fragments(queue)
    ensures (queue + backlog)[..Fragments(queue)] == queue[..Fragments(queue)]
    ensures (queue + backlog)[Fragments(queue)..] == queue[Fragments(queue)..] + backlog
    ensures Readable(queue + backlog) <==> Readable(queue)
  {
    assert (queue + backlog)[..|queue|] == queue;
    if queue == [] {
      assert queue + backlog == [];
    } else {
      assert (queue + backlog)[0] == queue[0];
    }
  }

  lemma {:induction false} OneFragment(q: seq<Segment>)
    requires q != [] && q[0].frg == 0
    ensures QueueBytes(q[..Fragments(q)]) == q[0].data
  {
    assert q[..1] == [q[0]] && [q[0]][1..] == [];
  }

  /** One more fragment joined. */
  lemma {:induction false} MergeOne(q: seq<Segment>, k: nat)
    requires k < |q|
    ensures q[k..][0] == q[k] && q[k..][1..] == q[k + 1..]
    ensures Fragments(q[k..]) == if q[k].frg == 0 then 1 else 1 + Fragments(q[k + 1..])
    ensures QueueBytes(q[..k + 1]) == QueueBytes(q[..k]) + q[k].data
  {
    assert q[..k + 1] == q[..k] + [q[k]];
    QueueBytesAppend(q[..k], [q[k]]);
    assert [q[k]][1..] == [];
  }

  lemma {:induction false} MoveOne(queue: seq<Segment>, backlog: seq<Segment>)
    requires backlog != []
    ensures queue + [backlog[0]] + backlog[1..] == queue + backlog
  {
  }
}
