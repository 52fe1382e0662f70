/**
 * 3rd/asio/basic_socket_streambuf.hpp: characters written through a put buffer, or without one, to a
 * socket that takes as many bytes at a time as it likes; and characters read through a get buffer.
 */
module SocketStreambufModel {
  import opened Common

  /** One pass of a send or receive loop, as the clock and the socket decide it. */
  datatype Turn =
    | Expired
    | Sent(count: nat)
    | Received(first: byte, rest: seq<byte>)
    | Blocked
    | EndOfFile
    | Failed

  datatype SocketError = NoSocketError | TimedOutError | EofError | OtherSocketError

  // ---------------------------------------------------------------- what the socket does with an output

  /** A send of a nonempty output takes at least one byte and at most all of it. */
  function Chunk(count: nat, n: nat): nat {
    Max(1, Min(count, n))
  }

  /** How many of `n` bytes the socket takes before something stops the sender, or all are sent. */
  function Taken(n: nat, turns: seq<Turn>): (r: nat)
    ensures r <= n
  {
    if n == 0 || turns == [] then 0
    else
      match turns[0]
      case Sent(count) => Chunk(count, n) + Taken(n - Chunk(count, n), turns[1..])
      case Blocked => Taken(n, turns[1..])
      case _ => 0
  }

  /** What stops it; a run of turns that ends has run into the expiry time. */
  function SendError(n: nat, turns: seq<Turn>): SocketError {
    if n == 0 then NoSocketError
    else if turns == [] || turns[0].Expired? then TimedOutError
    else
      match turns[0]
      case Sent(count) => SendError(n - Chunk(count, n), turns[1..])
      case Blocked => SendError(n, turns[1..])
      case _ => OtherSocketError
  }

  lemma {:induction false} ErrorMeansShort(n: nat, turns: seq<Turn>)
    ensures SendError(n, turns) == NoSocketError <==> Taken(n, turns) == n
    decreases |turns|
  {
    if n != 0 && turns != [] {
      if turns[0].Sent? {
        ErrorMeansShort(n - Chunk(turns[0].count, n), turns[1..]);
      } else if turns[0].Blocked? {
        ErrorMeansShort(n, turns[1..]);
      }
    }
  }

  /** The two functions above, one turn further on. */
  lemma {:induction false} OneTurn(n: nat, turns: seq<Turn>, k: nat)
    requires n > 0 && k <= |turns|
    ensures k == |turns| || turns[k].Expired? ==>
              Taken(n, turns[k..]) == 0 && SendError(n, turns[k..]) == TimedOutError
    ensures k < |turns| && turns[k].Sent? ==>
              var c := Chunk(turns[k].count, n);
              && Taken(n, turns[k..]) == c + Taken(n - c, turns[k + 1..])
              && SendError(n, turns[k..]) == SendError(n - c, turns[k + 1..])
    ensures k < |turns| && turns[k].Blocked? ==>
              && Taken(n, turns[k..]) == Taken(n, turns[k + 1..])
              && SendError(n, turns[k..]) == SendError(n, turns[k + 1..])
    ensures k < |turns| && !turns[k].Expired? && !turns[k].Sent? && !turns[k].Blocked? ==>
              Taken(n, turns[k..]) == 0 && SendError(n, turns[k..]) == OtherSocketError
  {
    if k < |turns| {
      assert turns[k..][0] == turns[k] && turns[k..][1..] == turns[k + 1..];
    }
  }

  /** A socket that blocks now and then but takes something in `n` turns takes everything. */
  lemma {:induction false} PatientSendSucceeds(n: nat, turns: seq<Turn>)
    requires forall t <- turns :: t.Sent? || t.Blocked?
    requires Sends(turns) >= n
    ensures Taken(n, turns) == n
    decreases |turns|
  {
    if n != 0 {
      assert turns[0] in turns;
      assert forall t <- turns[1..] :: t in turns;
      if turns[0].Sent? {
        PatientSendSucceeds(n - Chunk(turns[0].count, n), turns[1..]);
      } else {
        PatientSendSucceeds(n, turns[1..]);
      }
    }
  }

  /** The bytes the socket is ready to take over some turns; a send takes at least one. */
  function Offered(turns: seq<Turn>): nat {
    if turns == [] then 0
    else (if turns[0].Sent? then Max(1, turns[0].count) else 0) + Offered(turns[1..])
  }

  /**
   * Up to the first turn that expires or fails the socket takes what it offers, or all there is to take;
   * what stops a sender that has more is that turn, or the expiry if there is none.
   */
  lemma {:induction false} TakenIs(n: nat, turns: seq<Turn>, k: nat)
    requires k <= |turns| && (forall t <- turns[..k] :: t.Sent? || t.Blocked?)
    requires k < |turns| ==> !turns[k].Sent? && !turns[k].Blocked?
    ensures Taken(n, turns) == Min(n, Offered(turns[..k]))
    ensures Offered(turns[..k]) < n ==>
              SendError(n, turns) == if k == |turns| || turns[k].Expired? then TimedOutError else OtherSocketError
    decreases k
  {
    if k > 0 {
      assert turns[..k][0] == turns[0] && turns[..k][0] in turns[..k];
      assert turns[1..][..k - 1] == turns[..k][1..];
      assert forall t <- turns[..k][1..] :: t in turns[..k];
      assert k < |turns| ==> turns[1..][k - 1] == turns[k];
      if n > 0 {
        TakenIs(if turns[0].Sent? then n - Chunk(turns[0].count, n) else n, turns[1..], k - 1);
      }
    }
  }

  function Sends(turns: seq<Turn>): nat {
    if turns == [] then 0 else (if turns[0].Sent? then 1 else 0) + Sends(turns[1..])
  }

  // ---------------------------------------------------------------- what the socket has to read

  const BUFFER_SIZE: nat := 512
  const PUTBACK_MAX: nat := 8

  datatype Arrival = Arrival(data: seq<byte>) | NoArrival(ec: SocketError)

  /** What the receiver ends with: the first bytes there are, as many as fit, or what stops it. */
  function FirstArrival(turns: seq<Turn>): (r: Arrival)
    ensures r.Arrival? ==> 0 < |r.data| <= BUFFER_SIZE - PUTBACK_MAX
    ensures r.NoArrival? ==> r.ec != NoSocketError
  {
    if turns == [] then NoArrival(TimedOutError)
    else
      match turns[0]
      case Expired => NoArrival(TimedOutError)
      case Received(first, rest) => Arrival(([first] + rest)[..Min(1 + |rest|, BUFFER_SIZE - PUTBACK_MAX)])
      case Blocked => FirstArrival(turns[1..])
      case EndOfFile => NoArrival(EofError)
      case _ => NoArrival(OtherSocketError)
  }

  /** Turns in which the socket would block only make the reader wait. */
  predicate OnlyBlocks(turns: seq<Turn>) {
    forall t <- turns :: t == Blocked
  }

  /**
   * After any number of turns that block: bytes that arrive are taken, up to 504 of them; an expiry, the
   * end of the stream or a failure is reported as such; and blocking to the end runs into the expiry.
   */
  lemma {:induction false} FirstArrivalIs(turns: seq<Turn>, k: nat)
    requires k <= |turns| && OnlyBlocks(turns[..k])
    ensures var r := FirstArrival(turns);
            if k == |turns| then r == NoArrival(TimedOutError)
            else
              match turns[k]
              case Received(first, rest) =>
                var all := [first] + rest;
                r == Arrival(if |all| <= 504 then all else all[..504])
              case Expired => r == NoArrival(TimedOutError)
              case EndOfFile => r == NoArrival(EofError)
              case Blocked => r == FirstArrival(turns[k + 1..])
              case _ => r == NoArrival(OtherSocketError)
    decreases k
  {
    if k > 0 {
      assert turns[..k][0] in turns[..k] && turns[..k][0] == turns[0];
      assert turns[1..][..k - 1] == turns[..k][1..];
      assert forall t <- turns[..k][1..] :: t in turns[..k];
      FirstArrivalIs(turns[1..], k - 1);
      assert k < |turns| ==> turns[1..][k..] == turns[k + 1..];
    } else if turns != [] && turns[0].Received? {
      var all := [turns[0].first] + turns[0].rest;
      assert |all| <= 504 ==> all[..|all|] == all;
    }
  }

  // ---------------------------------------------------------------- the put side's account

  /** What the socket has taken, then what waits, is what was written: nothing lost, doubled or moved. */
  predicate Accounts(wire: seq<byte>, waiting: seq<byte>, written: seq<byte>) {
    wire + waiting == written
  }

  lemma {:induction false} AccountsAppend(wire: seq<byte>, waiting: seq<byte>, written: seq<byte>, c: byte)
    ensures Accounts(wire, waiting + [c], written + [c]) <==> Accounts(wire, waiting, written)
  {
    Associate(wire, waiting, [c]);
    SuffixCancels(wire + waiting, written, [c]);
  }

  lemma {:induction false} AccountsDirect(wire: seq<byte>, written: seq<byte>, c: byte)
    ensures Accounts(wire + [c], [], written + [c]) <==> Accounts(wire, [], written)
  {
    assert wire + [c] + [] == wire + [c] && wire + [] == wire;
    SuffixCancels(wire, written, [c]);
  }

  lemma {:induction false} AccountsFlush(wire: seq<byte>, waiting: seq<byte>, written: seq<byte>)
    ensures Accounts(wire + waiting, [], written) <==> Accounts(wire, waiting, written)
    ensures Accounts(wire + waiting, [], written) ==> wire + waiting == written
  {
    assert wire + waiting + [] == wire + waiting;
  }

  /** Bytes sent that stay in the put area will be sent again. */
  lemma {:induction false} AccountsPartial(wire: seq<byte>, waiting: seq<byte>, written: seq<byte>, n: nat)
    requires Accounts(wire, waiting, written) && n <= |waiting|
    ensures Accounts(wire + waiting[..n], waiting, written) <==> n == 0
  {
    if n == 0 {
      assert wire + waiting[..0] == wire;
    } else {
      assert |wire + waiting[..n] + waiting| > |written|;
    }
  }

  lemma {:induction false} SuffixCancels(a: seq<byte>, b: seq<byte>, tail: seq<byte>)
    ensures a + tail == b + tail <==> a == b
  {
    if a + tail == b + tail {
      assert a == (a + tail)[..|a|] && b == (b + tail)[..|b|];
    }
  }

  lemma {:induction false} PrefixGrows(wire: seq<byte>, output: seq<byte>, i: nat, n: nat)
    requires i + n <= |output|
    ensures wire + output[..i] + output[i..i + n] == wire + output[..i + n]
  {
    assert output[..i + n] == output[..i] + output[i..i + n];
  }

  lemma {:induction false} PrefixAppends(b: seq<byte>, i: nat, c: byte)
    requires i < |b|
    ensures b[i := c][..i + 1] == b[..i] + [c]
  {
  }

  class SocketStreambuf {
    var getBuffer: seq<byte>
    var putBuffer: seq<byte>
    var gptr: nat
    var egptr: nat
    var pptr: nat
    var epptr: nat
    var ec: SocketError

    /** What the user wrote and the socket took; what the socket gave, and how much of it the user read. */
    ghost var written: seq<byte>
    ghost var wire: seq<byte>
    ghost var arrived: seq<byte>
    ghost var taken: nat

    ghost predicate Valid()
      reads this
    {
      && |getBuffer| == BUFFER_SIZE
      && PUTBACK_MAX <= gptr <= egptr <= BUFFER_SIZE
      && (putBuffer == [] || |putBuffer| == BUFFER_SIZE)
      && pptr <= epptr == |putBuffer|
      && taken <= |arrived| && GetArea() == arrived[taken..]
    }

    /** No byte written is lost, sent twice or out of order. */
    ghost predicate Conserved()
      reads this
    {
      Accounts(wire, PutArea(), written)
    }

    function PutArea(): seq<byte>
      reads this
    {
      if pptr <= |putBuffer| then putBuffer[..pptr] else []
    }

    function GetArea(): seq<byte>
      reads this
    {
      if gptr <= egptr <= |getBuffer| then getBuffer[gptr..egptr] else []
    }

    /** What overflow has to send: the put area, or without one the character itself. */
    function Output(c: Option<byte>): seq<byte>
      reads this
    {
      if putBuffer != [] then PutArea() else if c.Some? then [c.value] else []
    }

    constructor ()
      ensures Valid() && Conserved()
      ensures PutArea() == [] && GetArea() == [] && pptr == 0 && epptr == |putBuffer| == BUFFER_SIZE
      ensures written == wire == arrived == [] && taken == 0
    {
      getBuffer := seq(BUFFER_SIZE, _ => 0);
      putBuffer := seq(BUFFER_SIZE, _ => 0);
      gptr, egptr := PUTBACK_MAX, PUTBACK_MAX;
      pptr, epptr := 0, BUFFER_SIZE;
      ec := NoSocketError;
      written, wire, arrived, taken := [], [], [], 0;
    }

    // -------------------------------------------------------------- writing

    /** The send loop of overflow. */
    method SendAll(output: seq<byte>, turns: seq<Turn>) returns (ok: bool)
      modifies this`wire, this`ec
      ensures ok <==> Taken(|output|, turns) == |output|
      ensures wire == old(wire) + output[..Taken(|output|, turns)]
      ensures ec == if |output| == 0 then old(ec) else SendError(|output|, turns)
    {
      ErrorMeansShort(|output|, turns);
      var sent: nat, turn: nat := 0, 0;
      while sent < |output|
        invariant sent <= |output| && turn <= |turns|
        invariant wire == old(wire) + output[..sent]
        invariant sent + Taken(|output| - sent, turns[turn..]) == Taken(|output|, turns)
        invariant SendError(|output| - sent, turns[turn..]) == SendError(|output|, turns)
        invariant ec == if turn == 0 then old(ec) else NoSocketError
        invariant turn == 0 ==> sent == 0
        invariant |output| == 0 ==> turn == 0
        decreases |turns| - turn
      {
        OneTurn(|output| - sent, turns, turn);
        if turn >= |turns| || turns[turn].Expired? {
          ec := TimedOutError;
          return false;
        }
        if turns[turn].Sent? {
          var bytes := Chunk(turns[turn].count, |output| - sent);
          PrefixGrows(old(wire), output, sent, bytes);
          wire := wire + output[sent..sent + bytes];
          sent := sent + bytes;
        } else if !turns[turn].Blocked? {
          ec := OtherSocketError;
          return false;
        }
        ec := NoSocketError;
        turn := turn + 1;
      }
      ok := true;
    }

    /** None is the end-of-file value, which only flushes; false stands for returning it. */
    method Overflow(c: Option<byte>, turns: seq<Turn>) returns (ok: bool)
      requires Valid()
      modifies this`wire, this`ec, this`putBuffer, this`pptr, this`written
      ensures Valid() && (putBuffer == [] <==> old(putBuffer) == [])
      ensures var n := |old(Output(c))|;
              && (ok <==> Taken(n, turns) == n)
              && wire == old(wire) + old(Output(c))[..Taken(n, turns)]
              && ec == (if n == 0 then old(ec) else SendError(n, turns))
      ensures written == old(written) + if ok && c.Some? then [c.value] else []
      ensures PutArea() == if !ok then old(PutArea()) else if c.Some? && putBuffer != [] then [c.value] else []
      ensures ok ==> (Conserved() <==> old(Conserved()))
      ensures !ok && old(Conserved()) ==> (Conserved() <==> Taken(|old(Output(c))|, turns) == 0)
    {
      var output := Output(c);
      ok := SendAll(output, turns);
      if !ok {
        if old(Conserved()) && putBuffer != [] {
          AccountsPartial(old(wire), output, written, Taken(|output|, turns));
        }
        return;
      }
      assert output[..|output|] == output;
      if putBuffer != [] {
        AccountsFlush(old(wire), output, written);
        pptr := 0;
        if c.Some? {
          Append(c.value);
        }
      } else if c.Some? {
        AccountsDirect(old(wire), written, c.value);
        written := written + [c.value];
      }
    }

    /** The character goes where the put pointer stands, which then moves on by one. */
    method Append(c: byte)
      requires Valid() && pptr < epptr
      modifies this`putBuffer, this`pptr, this`written
      ensures Valid() && putBuffer != [] && pptr == old(pptr) + 1
      ensures PutArea() == old(PutArea()) + [c] && written == old(written) + [c]
      ensures Conserved() <==> old(Conserved())
    {
      AccountsAppend(wire, PutArea(), written, c);
      PrefixAppends(putBuffer, pptr, c);
      putBuffer := putBuffer[pptr := c];
      pptr := pptr + 1;
      written := written + [c];
    }

    /** std::streambuf::sputc: only a full put area, or none, needs the socket. */
    method PutChar(c: byte, turns: seq<Turn>) returns (ok: bool)
      requires Valid()
      modifies this`wire, this`ec, this`putBuffer, this`pptr, this`written
      ensures Valid() && (putBuffer == [] <==> old(putBuffer) == [])
      ensures written == old(written) + if ok then [c] else []
      ensures ok ==> (Conserved() <==> old(Conserved()))
      ensures old(pptr) < old(epptr) ==>
                ok && wire == old(wire) && PutArea() == old(PutArea()) + [c] && pptr == old(pptr) + 1
      ensures old(pptr) == old(epptr) ==>
                var n := |old(Output(Some(c)))|;
                && (ok <==> Taken(n, turns) == n)
                && wire == old(wire) + old(Output(Some(c)))[..Taken(n, turns)]
                && (!ok ==> PutArea() == old(PutArea()) && ec == SendError(n, turns))
                && (!ok && old(Conserved()) ==> (Conserved() <==> Taken(n, turns) == 0))
    {
      if pptr < epptr {
        Append(c);
        ok := true;
      } else {
        ok := Overflow(Some(c), turns);
      }
    }

    /** A successful sync has handed everything written to the socket. */
    method Sync(turns: seq<Turn>) returns (ok: bool)
      requires Valid()
      modifies this`wire, this`ec, this`putBuffer, this`pptr, this`written
      ensures Valid() && (putBuffer == [] <==> old(putBuffer) == [])
      ensures var n := |old(PutArea())|;
              && (ok <==> Taken(n, turns) == n)
              && wire == old(wire) + old(PutArea())[..Taken(n, turns)]
              && ec == (if n == 0 then old(ec) else SendError(n, turns))
      ensures written == old(written)
      ensures PutArea() == if ok then [] else old(PutArea())
      ensures ok && old(Conserved()) ==> Conserved() && wire == written
      ensures !ok && old(Conserved()) ==> (Conserved() <==> Taken(|old(PutArea())|, turns) == 0)
    {
      AccountsFlush(wire, PutArea(), written);
      assert PutArea()[..|PutArea()|] == PutArea();
      ok := Overflow(None, turns);
    }

    /** Only setbuf(0, 0), and only with nothing waiting, switches buffering off. */
    method SetBuf(nothing: bool, turns: seq<Turn>) returns (ok: bool)
      requires Valid()
      modifies this`wire, this`ec, this`putBuffer, this`pptr, this`epptr, this`written
      ensures Valid()
      ensures ok <==> nothing && old(pptr) == 0
      ensures putBuffer == if ok then [] else old(putBuffer)
      ensures PutArea() == old(PutArea()) && written == old(written) && wire == old(wire)
    {
      if pptr == 0 && nothing {
        putBuffer := [];
        pptr, epptr := 0, 0;
        var done := Sync(turns);
        return true;
      }
      return false;
    }

    // -------------------------------------------------------------- reading

    /** None is the end-of-file value, also given, and nothing read, while characters are left. */
    method Underflow(turns: seq<Turn>) returns (c: Option<byte>)
      requires Valid()
      modifies this`getBuffer, this`gptr, this`egptr, this`ec, this`arrived
      ensures Valid()
      ensures old(GetArea()) != [] ==>
                c.None? && ec == old(ec) && GetArea() == old(GetArea()) && arrived == old(arrived)
      ensures old(GetArea()) == [] ==>
                match FirstArrival(turns)
                case Arrival(data) =>
                  c == Some(data[0]) && GetArea() == data && arrived == old(arrived) + data && ec == NoSocketError
                case NoArrival(e) =>
                  c == None && GetArea() == [] && arrived == old(arrived) && ec == e
      ensures c.Some? ==> GetArea() != [] && GetArea()[0] == c.value
    {
      if gptr != egptr {
        return None;
      }
      var turn: nat := 0;
      while true
        invariant Valid() && gptr == egptr && arrived == old(arrived) && turn <= |turns|
        invariant FirstArrival(turns[turn..]) == FirstArrival(turns)
        decreases |turns| - turn
      {
        if turn >= |turns| || turns[turn].Expired? {
          ec := TimedOutError;
          return None;
        }
        assert turns[turn..][1..] == turns[turn + 1..];
        if turns[turn].Received? {
          var data := [turns[turn].first] + turns[turn].rest;
          Refill(data[..Min(|data|, BUFFER_SIZE - PUTBACK_MAX)]);
          ec := NoSocketError;
          return Some(getBuffer[gptr]);
        }
        if !turns[turn].Blocked? {
          ec := if turns[turn].EndOfFile? then EofError else OtherSocketError;
          return None;
        }
        turn := turn + 1;
      }
    }

    /** What recv writes behind the putback space becomes the get area. */
    method Refill(data: seq<byte>)
      requires Valid() && gptr == egptr
      requires data != [] && |data| <= BUFFER_SIZE - PUTBACK_MAX
      modifies this`getBuffer, this`gptr, this`egptr, this`arrived
      ensures Valid() && GetArea() == data && arrived == old(arrived) + data && gptr < egptr
    {
      DropAppended(arrived, data, taken);
      MiddleReplaced(getBuffer, PUTBACK_MAX, data);
      getBuffer := getBuffer[..PUTBACK_MAX] + data + getBuffer[PUTBACK_MAX + |data|..];
      gptr, egptr := PUTBACK_MAX, PUTBACK_MAX + |data|;
      arrived := arrived + data;
    }

    /** std::streambuf::sbumpc. */
    method GetChar(turns: seq<Turn>) returns (c: Option<byte>)
      requires Valid()
      modifies this`getBuffer, this`gptr, this`egptr, this`ec, this`arrived, this`taken
      ensures Valid()
      ensures old(GetArea()) != [] ==>
                && c == Some(old(GetArea())[0]) && GetArea() == old(GetArea())[1..]
                && arrived == old(arrived) && ec == old(ec)
      ensures old(GetArea()) == [] ==>
                match FirstArrival(turns)
                case Arrival(data) => c == Some(data[0]) && GetArea() == data[1..] && arrived == old(arrived) + data
                case NoArrival(e) => c == None && GetArea() == [] && arrived == old(arrived) && ec == e
      ensures taken == old(taken) + if c.Some? then 1 else 0
    {
      if gptr == egptr {
        c := Underflow(turns);
        if c.None? {
          return;
        }
      } else {
        c := Some(getBuffer[gptr]);
      }
      Advance();
    }

    /** The get pointer moves on by one. */
    method Advance()
      requires Valid() && gptr < egptr
      modifies this`gptr, this`taken
      ensures Valid() && GetArea() == old(GetArea())[1..] && taken == old(taken) + 1
    {
      DropTwice(arrived, taken, 1);
      SliceTail(getBuffer, gptr, egptr, 1);
      gptr := gptr + 1;
      taken := taken + 1;
    }
  }

  lemma {:induction false} MiddleReplaced(b: seq<byte>, i: nat, data: seq<byte>)
    requires i + |data| <= |b|
    ensures var r := b[..i] + data + b[i + |data|..];
            |r| == |b| && r[i..i + |data|] == data
  {
  }

  // ---------------------------------------------------------------- a flush that fails half way

  /** What a flush that failed had sent, the next one sends again. */
  method FlushTwice(sb: SocketStreambuf, first: seq<Turn>, second: seq<Turn>) returns (ok: bool, again: bool)
    requires sb.Valid()
    modifies sb`wire, sb`ec, sb`putBuffer, sb`pptr, sb`written
    ensures sb.Valid()
    ensures var area := old(sb.PutArea());
            && (ok <==> Taken(|area|, first) == |area|)
            && (!ok ==> (again <==> Taken(|area|, second) == |area|))
            && (!ok && again ==> sb.wire == old(sb.wire) + area[..Taken(|area|, first)] + area)
  {
    ok := sb.Sync(first);
    again := ok;
    if !ok {
      ghost var area := sb.PutArea();
      assert area[..|area|] == area;
      again := sb.Sync(second);
    }
  }

  /** The socket takes one of two characters and then fails; the next flush sends both. */
  method FailedFlushRepeats(a: byte, b: byte) returns (ghost wire: seq<byte>, first: bool, second: bool)
    ensures !first && second
    ensures wire == [a, a, b]
  {
    var sb := new SocketStreambuf();
    TwoWaiting(sb, a, b);
    TakenWitness();
    first, second := FlushTwice(sb, [Sent(1), Failed], [Sent(2)]);
    OneOfTwo(a, b);
    wire := sb.wire;
  }

  method TwoWaiting(sb: SocketStreambuf, a: byte, b: byte)
    requires sb.Valid() && sb.PutArea() == sb.wire == [] && sb.pptr == 0 && sb.epptr == BUFFER_SIZE
    modifies sb`wire, sb`ec, sb`putBuffer, sb`pptr, sb`written
    ensures sb.Valid() && sb.PutArea() == [a, b] && sb.wire == []
  {
    var ok := sb.PutChar(a, []);
    assert sb.PutArea() == [a];
    ok := sb.PutChar(b, []);
  }

  lemma {:induction false} OneOfTwo(a: byte, b: byte)
    ensures [] + [a, b][..1] + [a, b] == [a, a, b]
  {
  }

  lemma {:induction false} TakenWitness()
    ensures Taken(2, [Sent(1), Failed]) == 1 && Taken(2, [Sent(2)]) == 2
  {
    assert [Sent(1), Failed][1..] == [Failed] && [Sent(2)][1..] == [];
    assert Taken(1, [Failed]) == 0;
  }
}
