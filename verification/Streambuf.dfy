/**
 * 3rd/asio/basic_streambuf.hpp. One vector holds the readable bytes and the space for more; the
 * stream pointers are offsets into it. Whatever is moved, resized or wrapped, the readable part
 * is the queue of bytes put in and not yet taken out.
 */
module StreambufModel {
  import opened Common

  /** memmove of `count` bytes from offset `from` to the front. */
  function Moved(b: seq<byte>, from: nat, count: nat): (r: seq<byte>)
    requires from + count <= |b|
    ensures |r| == |b| && r[..count] == b[from..from + count]
  {
    b[from..from + count] + b[count..]
  }

  /** What such a move leaves readable when the offsets are not renewed: bytes `c` had started at `g`. */
  function Slid(c: seq<byte>, g: nat): seq<byte> {
    if g <= |c| then c[g..] + c[|c| - g..] else c
  }

  predicate Repeats(c: seq<byte>, g: nat) {
    forall i: nat | i + g < |c| :: c[i] == c[i + g]
  }

  lemma {:induction false} MovedIsSlid(b: seq<byte>, g: nat, p: nat)
    requires g <= p <= |b|
    ensures Moved(b, g, p - g)[g..p] == Slid(b[g..p], g)
  {
    var m, c := Moved(b, g, p - g), b[g..p];
    forall i | 0 <= i < p - g ensures m[g..p][i] == Slid(c, g)[i] {
      assert m[g..p][i] == m[g + i];
      if g + i < p - g {
        assert m[g + i] == m[..p - g][g + i] == c[g + i];
      }
    }
  }

  /** A move that is not followed up leaves the bytes as they were exactly if they repeat with that period. */
  lemma {:induction false} SlidKeeps(c: seq<byte>, g: nat)
    ensures Slid(c, g) == c <==> Repeats(c, g)
  {
    if g <= |c| {
      forall i | 0 <= i < |c|
        ensures Slid(c, g)[i] == if i + g < |c| then c[i + g] else c[i]
      {
      }
      if Repeats(c, g) {
        assert forall i | 0 <= i < |c| :: Slid(c, g)[i] == c[i];
      }
    }
  }

  lemma {:induction false} SliceGrows(b: seq<byte>, i: nat, j: nat, k: nat)
    requires i <= j <= k <= |b|
    ensures b[i..k] == b[i..j] + b[j..k]
  {
  }

  lemma {:induction false} SliceAppends(b: seq<byte>, i: nat, j: nat, c: byte)
    requires i <= j < |b|
    ensures b[j := c][i..j + 1] == b[i..j] + [c]
  {
  }

  lemma {:induction false} SliceApart(b: seq<byte>, i: nat, j: nat, data: seq<byte>)
    requires i <= j <= j + |data| <= |b|
    ensures var r := b[..j] + data + b[j + |data|..];
            |r| == |b| && r[i..j] == b[i..j] && r[j..j + |data|] == data
  {
  }

  /** vector::resize. */
  function Resized(b: seq<byte>, n: nat): (r: seq<byte>)
    ensures |r| == n
    ensures r[..Min(n, |b|)] == b[..Min(n, |b|)]
  {
    if n <= |b| then b[..n] else b + seq(n - |b|, _ => 0)
  }

  lemma {:induction false} ResizedKeeps(b: seq<byte>, n: nat, p: nat)
    requires p <= n && p <= |b|
    ensures Resized(b, n)[..p] == b[..p]
  {
    assert Resized(b, n)[..p] == Resized(b, n)[..Min(n, |b|)][..p];
    assert b[..p] == b[..Min(n, |b|)][..p];
  }

  class Streambuf {
    const BUFFER_DELTA: nat := 128
    const maxSize: nat

    var buffer: seq<byte>
    var capacity: nat
    var gptr: nat
    var egptr: nat
    var pptr: nat
    var epptr: nat

    /**
     * Everything ever put in, and how much of it has been taken out; spoiled once a prepare that threw
     * has changed what is readable.
     */
    ghost var entered: seq<byte>
    ghost var left: nat
    ghost var spoiled: bool

    ghost predicate Valid()
      reads this
    {
      && gptr <= egptr <= pptr <= epptr <= maxSize
      && |buffer| == Max(epptr, 1)
      && |buffer| <= capacity
      && (!spoiled ==> left <= |entered| && Contents() == entered[left..])
    }

    function Contents(): seq<byte>
      reads this
    {
      if gptr <= pptr <= |buffer| then buffer[gptr..pptr] else []
    }

    constructor (maximumSize: nat)
      ensures Valid() && Contents() == [] && maxSize == maximumSize
      ensures entered == [] && left == 0 && !spoiled
      ensures gptr == 0 && epptr - pptr == Min(maximumSize, BUFFER_DELTA)
    {
      var pend := Min(maximumSize, BUFFER_DELTA);
      maxSize := maximumSize;
      buffer := seq(Max(pend, 1), _ => 0);
      capacity := Max(pend, 1);
      gptr, egptr, pptr, epptr := 0, 0, 0, pend;
      entered, left, spoiled := [], 0, false;
    }

    method Size() returns (n: nat)
      requires Valid()
      ensures n == |Contents()| <= maxSize
    {
      n := pptr - gptr;
    }

    /** False stands for std::length_error. The bytes are moved before the limit is checked. */
    method Reserve(n: nat) returns (ok: bool)
      requires Valid()
      modifies this
      ensures Valid()
      ensures ok <==> |old(Contents())| + n <= maxSize
      ensures ok ==> Contents() == old(Contents()) && n <= epptr - pptr
      ensures !ok ==> Contents() == Slid(old(Contents()), old(gptr))
      ensures spoiled == (old(spoiled) || Contents() != old(Contents()))
      ensures entered == old(entered) && left == old(left)
      ensures gptr <= old(gptr) && (ok || gptr == old(gptr))
    {
      if n <= epptr - pptr {
        return true;
      }
      var pnext := Shift();
      var pend := epptr;
      if n > pend - pnext {
        if n <= maxSize && pnext <= maxSize - n {
          pend := pnext + n;
          Resize(pnext, pend);
        } else {
          spoiled := spoiled || Contents() != old(Contents());
          return false;
        }
      }
      Place(pnext, pend);
      return true;
    }

    /** The vector gets room for the new end; what lies before `pnext` stays. */
    method Resize(pnext: nat, pend: nat)
      requires pnext <= pend && pnext <= |buffer|
      modifies this`buffer, this`capacity
      ensures |buffer| == Max(pend, 1) <= capacity
      ensures buffer[..pnext] == old(buffer)[..pnext]
    {
      ResizedKeeps(buffer, Max(pend, 1), pnext);
      buffer := Resized(buffer, Max(pend, 1));
      capacity := Max(capacity, |buffer|);
    }

    /** The stream positions are renewed. */
    method Place(pnext: nat, pend: nat)
      requires pnext <= pend <= maxSize && |buffer| == Max(pend, 1) <= capacity
      requires !spoiled ==> left <= |entered| && buffer[..pnext] == entered[left..]
      modifies this`gptr, this`egptr, this`pptr, this`epptr
      ensures Valid() && Contents() == buffer[..pnext]
      ensures gptr == 0 && epptr - pptr == pend - pnext
    {
      gptr, egptr, pptr, epptr := 0, pnext, pnext, pend;
    }

    /** The readable bytes are copied to the front, and the offsets are left as they are. */
    method Shift() returns (pnext: nat)
      requires Valid()
      modifies this`buffer
      ensures pnext == pptr - gptr && |buffer| == |old(buffer)|
      ensures buffer[..pnext] == old(Contents())
      ensures Contents() == Slid(old(Contents()), gptr)
    {
      pnext := pptr;
      SlidKeeps(Contents(), gptr);
      if gptr > 0 {
        pnext := pnext - gptr;
        MovedIsSlid(buffer, gptr, pptr);
        buffer := Moved(buffer, gptr, pnext);
      }
    }

    method Prepare(n: nat) returns (ok: bool)
      requires Valid()
      modifies this
      ensures Valid()
      ensures ok <==> |old(Contents())| + n <= maxSize
      ensures ok ==> Contents() == old(Contents()) && n <= epptr - pptr
      ensures !ok ==> Contents() == Slid(old(Contents()), old(gptr))
      ensures !ok ==> (Contents() == old(Contents()) <==> Repeats(old(Contents()), old(gptr)))
      ensures spoiled == (old(spoiled) || Contents() != old(Contents()))
      ensures entered == old(entered) && left == old(left)
      ensures gptr <= old(gptr) && (ok || gptr == old(gptr))
    {
      SlidKeeps(Contents(), gptr);
      ok := Reserve(n);
    }

    /** The caller writes through the buffer that prepare returned. */
    method Fill(data: seq<byte>)
      requires Valid() && |data| <= epptr - pptr
      modifies this`buffer
      ensures Valid()
      ensures Contents() == old(Contents())
      ensures buffer[pptr..pptr + |data|] == data
    {
      SliceApart(buffer, gptr, pptr, data);
      buffer := buffer[..pptr] + data + buffer[pptr + |data|..];
    }

    method Commit(n: nat)
      requires Valid()
      modifies this
      ensures Valid()
      ensures var taken := Min(n, old(epptr - pptr));
              var data := old(buffer)[old(pptr)..old(pptr) + taken];
              Contents() == old(Contents()) + data && entered == old(entered) + data
      ensures left == old(left) && spoiled == old(spoiled)
      ensures egptr == pptr && gptr == old(gptr) && epptr == old(epptr)
    {
      var taken := Min(n, epptr - pptr);
      ghost var data := buffer[pptr..pptr + taken];
      SliceGrows(buffer, gptr, pptr, pptr + taken);
      DropAppended(entered, data, left);
      pptr := pptr + taken;
      egptr := pptr;
      entered := entered + data;
    }

    /** What the caller of prepare and commit does in between. */
    method Write(data: seq<byte>)
      requires Valid() && |data| <= epptr - pptr
      modifies this
      ensures Valid()
      ensures Contents() == old(Contents()) + data && entered == old(entered) + data
      ensures left == old(left) && spoiled == old(spoiled) && gptr == old(gptr)
    {
      Fill(data);
      Commit(|data|);
    }

    method Consume(n: nat)
      requires Valid()
      modifies this
      ensures Valid()
      ensures Contents() == old(Contents())[Min(n, |old(Contents())|)..]
      ensures left == old(left) + Min(n, |old(Contents())|)
      ensures gptr == old(gptr) + Min(n, |old(Contents())|)
      ensures entered == old(entered) && spoiled == old(spoiled)
    {
      Publish();
      var taken := if gptr + n > pptr then pptr - gptr else n;
      assert taken == Min(n, |old(Contents())|);
      Advance(taken);
    }

    /** What has been put becomes the get area. */
    method Publish()
      requires Valid()
      modifies this`egptr
      ensures Valid() && egptr == pptr && Contents() == old(Contents())
    {
      if egptr < pptr {
        egptr := pptr;
      }
    }

    /** The get pointer moves forward. */
    method Advance(n: nat)
      requires Valid() && n <= egptr - gptr
      modifies this`gptr, this`left
      ensures Valid()
      ensures Contents() == old(Contents())[n..] && left == old(left) + n
      ensures gptr == old(gptr) + n
    {
      SliceTail(buffer, gptr, pptr, n);
      DropTwice(entered, left, n);
      left := left + n;
      gptr := gptr + n;
    }

    /** None stands for the end-of-file value. */
    method Underflow() returns (c: Option<byte>)
      requires Valid()
      modifies this`egptr
      ensures Valid()
      ensures Contents() == old(Contents())
      ensures c == if Contents() == [] then None else Some(Contents()[0])
      ensures c.Some? ==> gptr < egptr
    {
      if gptr < pptr {
        egptr := pptr;
        c := Some(buffer[gptr]);
      } else {
        c := None;
      }
    }

    /** False stands for std::length_error; the end-of-file value is accepted and does nothing. */
    method Overflow(c: Option<byte>) returns (ok: bool)
      requires Valid()
      modifies this
      ensures Valid()
      ensures ok <==> c.Some? ==> |old(Contents())| < maxSize
      ensures Contents() == old(Contents()) + if ok && c.Some? then [c.value] else []
      ensures entered == old(entered) + if ok && c.Some? then [c.value] else []
      ensures left == old(left) && spoiled == old(spoiled)
    {
      if c.None? {
        return true;
      }
      if pptr == epptr {
        ok := MakeRoom();
        if !ok {
          return;
        }
      }
      Append(c.value);
      ok := true;
    }

    /** Room for more than one character if there can be, for fewer near the limit. */
    method MakeRoom() returns (ok: bool)
      requires Valid() && pptr == epptr
      modifies this
      ensures Valid()
      ensures ok <==> |old(Contents())| < maxSize
      ensures ok ==> pptr < epptr
      ensures Contents() == old(Contents())
      ensures entered == old(entered) && left == old(left) && spoiled == old(spoiled)
    {
      SlidKeeps(Contents(), 0);
      var bufferSize := pptr - gptr;
      ok := Reserve(if bufferSize < maxSize && maxSize - bufferSize < BUFFER_DELTA
                    then maxSize - bufferSize else BUFFER_DELTA);
    }

    /** The character goes where the put pointer stands, which then moves on by one. */
    method Append(c: byte)
      requires Valid() && pptr < epptr
      modifies this
      ensures Valid()
      ensures Contents() == old(Contents()) + [c] && entered == old(entered) + [c]
      ensures left == old(left) && spoiled == old(spoiled)
    {
      SliceAppends(buffer, gptr, pptr, c);
      DropAppended(entered, [c], left);
      buffer := buffer[pptr := c];
      pptr := pptr + 1;
      entered := entered + [c];
    }

    /** std::streambuf::sputc. */
    method PutChar(c: byte) returns (ok: bool)
      requires Valid()
      modifies this
      ensures Valid()
      ensures ok <==> |old(Contents())| < maxSize
      ensures Contents() == old(Contents()) + if ok then [c] else []
      ensures entered == old(entered) + if ok then [c] else []
      ensures left == old(left) && spoiled == old(spoiled)
    {
      if pptr < epptr {
        Append(c);
        ok := true;
      } else {
        ok := Overflow(Some(c));
      }
    }

    /** std::streambuf::sbumpc: the character at gptr, or the one underflow makes readable. */
    method GetChar() returns (c: Option<byte>)
      requires Valid()
      modifies this
      ensures Valid()
      ensures c == if old(Contents()) == [] then None else Some(old(Contents())[0])
      ensures Contents() == if c.Some? then old(Contents())[1..] else []
      ensures left == old(left) + if c.Some? then 1 else 0
      ensures entered == old(entered) && spoiled == old(spoiled)
    {
      if gptr == egptr {
        c := Underflow();
        if c.None? {
          return;
        }
      } else {
        c := Some(buffer[gptr]);
      }
      Advance(1);
    }

    /** The friend read_size_helper: never more than can be prepared. */
    method ReadSizeHelper(limit: nat) returns (n: nat)
      requires Valid()
      ensures |Contents()| + n <= maxSize
      ensures n <= limit
      ensures n <= Max(512, capacity - |Contents()|)
      ensures n == limit || |Contents()| + n == maxSize || n == 512 || n == capacity - |Contents()|
      ensures n < limit && n < maxSize - |Contents()| ==> n >= 512 && n >= capacity - |Contents()|
    {
      n := Min(Max(512, capacity - (pptr - gptr)), Min(limit, maxSize - (pptr - gptr)));
    }
  }

  /** Three readable bytes with one consumed byte in front of them are lost; two with two are not. */
  lemma {:induction false} SlidWitness()
    ensures Slid([2, 3, 4], 1) == [3, 4, 4]
    ensures Slid([3, 4], 2) == [3, 4]
  {
    var c: seq<byte> := [2, 3, 4];
    assert c[1..] == [3, 4] && c[2..] == [4];
    assert Slid(c, 1) == c[1..] + c[2..];
    var d: seq<byte> := [3, 4];
    assert d[2..] == [] && d[0..] == d;
    assert Slid(d, 2) == d[2..] + d[0..];
  }

  /** A run that ends in a prepare that throws, and that finds `kept` readable behind `front`. */
  method FailedPrepare(limit: nat, front: seq<byte>, kept: seq<byte>) returns (ok: bool, after: seq<byte>)
    requires |front| + |kept| <= limit
    ensures !ok && after == Slid(kept, |front|)
  {
    var sb := new Streambuf(limit);
    FillFirst(sb, front + kept);
    sb.Consume(|front|);
    assert (front + kept)[|front|..] == kept;
    ok := sb.Prepare(limit + 1 - |kept|);
    after := sb.Contents();
  }

  method FillFirst(sb: Streambuf, data: seq<byte>)
    requires sb.Valid() && sb.Contents() == [] && sb.gptr == 0 && |data| <= sb.maxSize
    modifies sb
    ensures sb.Valid() && sb.Contents() == data && sb.gptr == 0
  {
    var ok := sb.Prepare(|data|);
    sb.Write(data);
  }
}
