/**
 * any_completion_handler_impl's allocate and deallocate: an aligned block is cut out of a larger one,
 * and the distance between the two is hidden in the word behind the block.
 */
module AlignedBlock {
  import opened Common

  const WORD_SIZE := 8
  const SIZE_RANGE: nat := 0x1_0000_0000_0000_0000

  // ---------------------------------------------------------------- a word in memory

  function Encode(n: nat, width: nat): (bytes: seq<byte>)
    ensures |bytes| == width
  {
    if width == 0 then [] else [(n % 256) as byte] + Encode(n / 256, width - 1)
  }

  function Decode(bytes: seq<byte>): nat {
    if bytes == [] then 0 else bytes[0] as nat + 256 * Decode(bytes[1..])
  }

  function Range(width: nat): nat {
    if width == 0 then 1 else 256 * Range(width - 1)
  }

  lemma {:induction false} WordReadsBack(n: nat, width: nat)
    requires n < Range(width)
    ensures Decode(Encode(n, width)) == n
  {
    if width > 0 {
      assert n / 256 < Range(width - 1);
      WordReadsBack(n / 256, width - 1);
      assert Encode(n, width)[1..] == Encode(n / 256, width - 1);
    }
  }

  lemma {:induction false} WordRange()
    ensures Range(WORD_SIZE) == SIZE_RANGE
  {
    assert Range(4) == 0x1_0000_0000;
    assert Range(8) == 256 * 256 * 256 * 256 * Range(4);
  }

  // ---------------------------------------------------------------- alignment

  /** std::align: the next aligned address, or None when the block no longer fits. */
  function Align(align: nat, size: nat, base: nat, space: nat): Option<nat>
    requires align > 0
  {
    var p := (base + align - 1) / align * align;
    if size + (p - base) > space then None else Some(p)
  }

  lemma {:induction false} AlignFits(align: nat, size: nat, base: nat)
    requires align > 0
    ensures var p := Align(align, size, base, size + align - 1);
            p.Some? && p.value % align == 0 && base <= p.value < base + align
  {
    var q := (base + align - 1) / align;
    var p := q * align;
    RoundUp(align, base, q);
    assert p % align == 0 by { MultipleOf(q, align); }
  }

  lemma {:induction false} RoundUp(align: nat, base: nat, q: nat)
    requires align > 0 && q == (base + align - 1) / align
    ensures base <= q * align < base + align
  {
    var r := (base + align - 1) % align;
    assert base + align - 1 == q * align + r;
  }

  lemma {:induction false} MultipleOf(q: nat, align: nat)
    requires align > 0
    ensures (q * align) % align == 0
  {
    if q > 0 {
      MultipleOf(q - 1, align);
      assert q * align == (q - 1) * align + align;
      AddOne((q - 1) * align, align);
    }
  }

  lemma {:induction false} AddOne(n: nat, align: nat)
    requires align > 0
    ensures (n + align) % align == n % align
  {
    var q, r := n / align, n % align;
    assert n == q * align + r;
    assert n + align == (q + 1) * align + r;
    DivideUnique(n + align, align, q + 1, r);
  }

  lemma {:induction false} DivideUnique(n: nat, d: nat, q: nat, r: nat)
    requires d > 0 && r < d && n == q * d + r
    ensures n % d == r
  {
    var k := n / d - q;
    assert n == n / d * d + n % d;
    assert k * d == r - n % d;
  }

  // ---------------------------------------------------------------- the allocator

  datatype Allocation = Allocation(base: nat, bytes: nat)

  function Total(size: nat, align: nat): nat
    requires align > 0
  {
    size + align - 1 + WORD_SIZE
  }

  /** Memory with the allocator underneath: which larger blocks it has given out. */
  class Memory {
    var cells: seq<byte>
    var given: set<Allocation>

    constructor (cells: seq<byte>)
      ensures this.cells == cells && given == {}
    {
      this.cells := cells;
      given := {};
    }

    method Copy(at: nat, bytes: seq<byte>)
      requires at + |bytes| <= |cells|
      modifies this`cells
      ensures cells == old(cells)[..at] + bytes + old(cells)[at + |bytes|..]
    {
      cells := cells[..at] + bytes + cells[at + |bytes|..];
    }

    /** None stands for std::bad_alloc; `base` is where the underlying allocator puts the larger block. */
    method Allocate(size: nat, align: nat, base: nat) returns (p: Option<nat>)
      requires align > 0 && base + Total(size, align) <= |cells| <= SIZE_RANGE
      modifies this
      ensures given == old(given) + {Allocation(base, Total(size, align))}
      ensures p.Some? && p.value % align == 0
      ensures base <= p.value && p.value + size + WORD_SIZE <= base + Total(size, align)
      ensures |cells| == |old(cells)|
      ensures cells[p.value + size..p.value + size + WORD_SIZE] == Encode(p.value - base, WORD_SIZE)
      ensures forall x | 0 <= x < |cells| && !(base <= x < base + Total(size, align)) :: cells[x] == old(cells)[x]
    {
      var space := size + align - 1;
      given := given + {Allocation(base, space + WORD_SIZE)};
      p := Align(align, size, base, space);
      AlignFits(align, size, base);
      if p.Some? {
        var offset := p.value - base;
        Copy(p.value + size, Encode(offset, WORD_SIZE));
      }
    }

    /** The larger block goes back whole, as long as the word behind the block was left alone. */
    method Deallocate(p: Option<nat>, size: nat, align: nat, ghost base: nat)
      requires align > 0
      requires p.Some? ==>
                 && base <= p.value && p.value + size + WORD_SIZE <= |cells| <= SIZE_RANGE
                 && cells[p.value + size..p.value + size + WORD_SIZE] == Encode(p.value - base, WORD_SIZE)
      modifies this`given
      ensures given == if p.Some? then old(given) - {Allocation(base, Total(size, align))} else old(given)
    {
      if p.Some? {
        WordRange();
        WordReadsBack(p.value - base, WORD_SIZE);
        var offset := Decode(cells[p.value + size..p.value + size + WORD_SIZE]);
        given := given - {Allocation(p.value - offset, size + align - 1 + WORD_SIZE)};
      }
    }

    /** A block of any size and alignment, written over by its owner and given back, leaves nothing behind. */
    method UseBlock(size: nat, align: nat, base: nat, content: seq<byte>)
      requires align > 0 && base + Total(size, align) <= |cells| <= SIZE_RANGE
      requires |content| == size && Allocation(base, Total(size, align)) !in given
      modifies this
      ensures given == old(given)
    {
      var p := Allocate(size, align, base);
      ghost var word := cells[p.value + size..p.value + size + WORD_SIZE];
      Copy(p.value, content);
      assert cells[p.value + size..p.value + size + WORD_SIZE] == word;
      Deallocate(p, size, align, base);
    }
  }
}
