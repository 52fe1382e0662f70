/** static_buffer_pool of include/kcp.hpp, on the one thread it belongs to. */
module BufferPool {
  import opened Common

  const BUFFER_SIZE := 2048
  const POOL_LIMIT := 1024

  class StaticBuffer {
    var size: nat
    var data: seq<byte>

    ghost predicate Valid()
      reads this
    {
      |data| == BUFFER_SIZE && size <= BUFFER_SIZE
    }

    constructor ()
      ensures Valid() && size == 0
    {
      size := 0;
      data := seq(BUFFER_SIZE, _ => 0);
    }

    /** An opcode and its payload; the assertion in the code keeps the payload two bytes short of the buffer. */
    method Write(opcode: byte, payload: seq<byte>)
      requires Valid() && |payload| + 1 < BUFFER_SIZE
      modifies this
      ensures Valid() && data[..size] == [opcode] + payload
    {
      size := 1 + |payload|;
      data := [opcode] + payload + data[size..];
      assert data[..size] == [opcode] + payload;
    }
  }

  class Pool {
    var pool: seq<StaticBuffer>
    /** Buffers handed out and not yet given back. */
    ghost var handles: set<StaticBuffer>

    ghost predicate Valid()
      reads this, pool
    {
      && |pool| <= POOL_LIMIT
      && (forall b <- pool :: b.Valid())
      && (forall i, j | 0 <= i < j < |pool| :: pool[i] != pool[j])
      && (forall b <- pool :: b !in handles)
    }

    constructor ()
      ensures Valid() && pool == [] && handles == {}
    {
      pool, handles := [], {};
    }

    /** The buffer handed out is empty, belongs to no one else, and the others stay with their owners. */
    method Make() returns (b: StaticBuffer)
      requires Valid()
      modifies this, pool
      ensures Valid()
      ensures b.Valid() && b.size == 0
      ensures b !in old(handles) && b !in pool && handles == old(handles) + {b}
      ensures if old(pool) == [] then fresh(b) && pool == []
              else b == old(pool)[|old(pool)| - 1] && pool == old(pool)[..|old(pool)| - 1]
    {
      if pool != [] {
        b := pool[|pool| - 1];
        assert b in pool;
        pool := pool[..|pool| - 1];
        assert forall c <- pool :: c in old(pool) && c != b;
        b.size := 0;
      } else {
        b := new StaticBuffer();
      }
      handles := handles + {b};
    }

    /** The deleter: back into the pool, or freed when the pool is full. */
    method Release(b: StaticBuffer) returns (freed: bool)
      requires Valid() && b in handles && b.Valid()
      modifies this
      ensures Valid()
      ensures handles == old(handles) - {b}
      ensures freed <==> |old(pool)| == POOL_LIMIT
      ensures pool == if freed then old(pool) else old(pool) + [b]
    {
      handles := handles - {b};
      freed := |pool| >= POOL_LIMIT;
      if !freed {
        pool := pool + [b];
      }
    }
  }
}
