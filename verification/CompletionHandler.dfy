/**
 * 3rd/asio/any_completion_handler.hpp: wrappers that own a type-erased handler block, and may be
 * moved, swapped, emptied, called and destroyed, also from inside a handler that is being called.
 */
module CompletionHandler {
  import opened Common

  /** Which handler type a function table or a block belongs to. */
  type Kind = nat

  type Name = nat

  datatype Wrapper = Wrapper(table: Option<Kind>, impl: Option<nat>)

  /** A handler block, by how often it has been freed and its handler has run. */
  datatype Block = Block(kind: Kind, frees: nat, runs: nat)

  /** `undefined` is set when a block is handed to the functions of another handler type. */
  datatype Heap = Heap(blocks: seq<Block>, undefined: bool)

  const NULL_WRAPPER := Wrapper(None, None)

  // ---------------------------------------------------------------- blocks

  function Created(h: Heap, kind: Kind): Heap {
    h.(blocks := h.blocks + [Block(kind, 0, 0)])
  }

  predicate Dispatches(h: Heap, w: Wrapper) {
    w.impl.Some? ==> w.impl.value < |h.blocks| && w.table == Some(h.blocks[w.impl.value].kind)
  }

  /** The table's destroy function releases the block, if there is one. */
  function Released(h: Heap, w: Wrapper): Heap {
    if w.impl.None? then h
    else if !Dispatches(h, w) then h.(undefined := true)
    else
      var b := h.blocks[w.impl.value];
      h.(blocks := h.blocks[w.impl.value := b.(frees := b.frees + 1)])
  }

  /** The part of the table's call function after the block has been released: the handler runs. */
  function Entered(h: Heap, w: Wrapper): Heap {
    if w.impl.None? || !Dispatches(h, w) then h
    else
      var b := h.blocks[w.impl.value];
      h.(blocks := h.blocks[w.impl.value := b.(runs := b.runs + 1)])
  }

  // ---------------------------------------------------------------- programs over wrappers

  /** `body` is what the handler does while it runs. */
  datatype Op =
    | Construct(w: Name, kind: Kind)
    | ConstructNull(w: Name)
    | MoveConstruct(w: Name, source: Name)
    | Swap(w: Name, other: Name)
    | AssignNull(w: Name)
    | Call(w: Name, body: seq<Op>)
    | Destroy(w: Name)

  datatype Program = Program(wrappers: map<Name, Wrapper>, heap: Heap)

  const EMPTY := Program(map[], Heap([], false))

  /** A constructor makes a new name, everything else needs names that exist; there are no other calls. */
  predicate Legal(s: Program, op: Op) {
    match op
    case Construct(w, _) => w !in s.wrappers
    case ConstructNull(w) => w !in s.wrappers
    case MoveConstruct(w, source) => w !in s.wrappers && source in s.wrappers
    case Swap(w, other) => w in s.wrappers && other in s.wrappers
    case AssignNull(w) => w in s.wrappers
    case Call(w, _) => w in s.wrappers
    case Destroy(w) => w in s.wrappers
  }

  function Exec(s: Program, op: Op): Program
    decreases op
  {
    if !Legal(s, op) then s
    else
      match op
      case Construct(w, kind) =>
        Program(s.wrappers[w := Wrapper(Some(kind), Some(|s.heap.blocks|))], Created(s.heap, kind))
      case ConstructNull(w) => s.(wrappers := s.wrappers[w := NULL_WRAPPER])
      case MoveConstruct(w, source) =>
        s.(wrappers := s.wrappers[w := s.wrappers[source]][source := NULL_WRAPPER])
      case Swap(w, other) =>
        s.(wrappers := s.wrappers[w := s.wrappers[other]][other := s.wrappers[w]])
      case AssignNull(w) =>
        Program(s.wrappers[w := NULL_WRAPPER], Released(s.heap, s.wrappers[w]))
      case Call(w, body) =>
        if s.wrappers[w].impl.None? then s  // throws bad_function_call
        else ExecAll(BeforeBody(s, w), body)
      case Destroy(w) => Program(s.wrappers - {w}, Released(s.heap, s.wrappers[w]))
  }

  /** The wrapper is empty and the block released by the time the handler body starts. */
  function BeforeBody(s: Program, w: Name): Program
    requires w in s.wrappers
  {
    var wrapper := s.wrappers[w];
    Program(s.wrappers[w := wrapper.(impl := None)], Entered(Released(s.heap, wrapper), wrapper))
  }

  function ExecAll(s: Program, ops: seq<Op>): Program
    decreases ops
  {
    if ops == [] then s else ExecAll(Exec(s, ops[0]), ops[1..])
  }

  // ---------------------------------------------------------------- ownership

  ghost predicate HasOwner(s: Program, b: nat) {
    exists w :: w in s.wrappers && s.wrappers[w].impl == Some(b)
  }

  ghost predicate OneOwner(s: Program) {
    forall v, w | v in s.wrappers && w in s.wrappers && s.wrappers[v].impl.Some? ::
      s.wrappers[v].impl == s.wrappers[w].impl ==> v == w
  }

  /** A block has one owner and is untouched, or has none, was freed once and run at most once. */
  ghost predicate Owned(s: Program) {
    && !s.heap.undefined
    && (forall w | w in s.wrappers :: Dispatches(s.heap, s.wrappers[w]))
    && OneOwner(s)
    && (forall b | 0 <= b < |s.heap.blocks| :: Accounted(s, b))
  }

  ghost predicate Accounted(s: Program, b: nat)
    requires b < |s.heap.blocks|
  {
    var block := s.heap.blocks[b];
    if HasOwner(s, b) then block.frees == 0 && block.runs == 0 else block.frees == 1 && block.runs <= 1
  }

  lemma {:induction false} ConstructKeepsOwned(s: Program, w: Name, kind: Kind)
    requires Owned(s) && w !in s.wrappers
    ensures Owned(Exec(s, Construct(w, kind)))
  {
    var r := Exec(s, Construct(w, kind));
    var n := |s.heap.blocks|;
    assert r.wrappers[w].impl == Some(n);
    forall b | 0 <= b < n ensures Accounted(r, b) {
      assert Accounted(s, b);
      if HasOwner(s, b) {
        var v :| v in s.wrappers && s.wrappers[v].impl == Some(b);
        assert v in r.wrappers && r.wrappers[v].impl == Some(b);
      }
    }
  }

  /** Where a wrapper's content goes when wrappers are moved, swapped or made empty, and where it was. */
  function Renamed(op: Op, v: Name): Name {
    match op
    case MoveConstruct(w, source) => if v == source then w else if v == w then source else v
    case Swap(w, other) => if v == w then other else if v == other then w else v
    case _ => v
  }

  lemma {:induction false} RenameMoves(s: Program, op: Op)
    requires Legal(s, op) && (op.ConstructNull? || op.MoveConstruct? || op.Swap?)
    ensures forall v: Name | v in s.wrappers && s.wrappers[v].impl.Some? ::
              Renamed(op, v) in Exec(s, op).wrappers && Exec(s, op).wrappers[Renamed(op, v)] == s.wrappers[v]
    ensures forall v: Name | v in Exec(s, op).wrappers && Exec(s, op).wrappers[v].impl.Some? ::
              Renamed(op, v) in s.wrappers && s.wrappers[Renamed(op, v)] == Exec(s, op).wrappers[v]
    ensures Exec(s, op).heap == s.heap
  {
  }

  lemma {:induction false} RenameKeepsOwned(s: Program, op: Op)
    requires Owned(s) && Legal(s, op) && (op.ConstructNull? || op.MoveConstruct? || op.Swap?)
    ensures Owned(Exec(s, op))
  {
    var r := Exec(s, op);
    RenameMoves(s, op);
    forall b: nat | b < |r.heap.blocks| ensures Accounted(r, b) {
      assert Accounted(s, b);
      RenameKeepsOwner(s, op, b);
    }
    forall v: Name, w: Name | v in r.wrappers && w in r.wrappers && r.wrappers[v].impl.Some?
                              && r.wrappers[v].impl == r.wrappers[w].impl
      ensures v == w
    {
      assert Renamed(op, v) == Renamed(op, w);
    }
  }

  lemma {:induction false} RenameKeepsOwner(s: Program, op: Op, b: nat)
    requires Legal(s, op) && (op.ConstructNull? || op.MoveConstruct? || op.Swap?)
    ensures HasOwner(s, b) <==> HasOwner(Exec(s, op), b)
  {
    var r := Exec(s, op);
    RenameMoves(s, op);
    if HasOwner(s, b) {
      var v: Name :| v in s.wrappers && s.wrappers[v].impl == Some(b);
      assert r.wrappers[Renamed(op, v)].impl == Some(b);
    }
  }

  /** Taking a block out of its wrapper and releasing it, whether or not its handler then runs. */
  lemma {:induction false} DropKeepsOwned(s: Program, w: Name, r: Program)
    requires Owned(s) && w in s.wrappers
    requires r.heap == Released(s.heap, s.wrappers[w])
             || r.heap == Entered(Released(s.heap, s.wrappers[w]), s.wrappers[w])
    requires r.wrappers.Keys == s.wrappers.Keys || r.wrappers.Keys == s.wrappers.Keys - {w}
    requires forall v | v in r.wrappers :: if v == w then r.wrappers[v].impl.None? else r.wrappers[v] == s.wrappers[v]
    ensures Owned(r)
    ensures s.wrappers[w].impl.Some? ==> !HasOwner(r, s.wrappers[w].impl.value)
  {
    forall b: nat | b < |r.heap.blocks| ensures Accounted(r, b) {
      assert Accounted(s, b);
      if s.wrappers[w].impl != Some(b) && HasOwner(s, b) {
        var v: Name :| v in s.wrappers && s.wrappers[v].impl == Some(b);
        assert v in r.wrappers && r.wrappers[v].impl == Some(b);
      }
    }
  }

  lemma {:induction false} ExecKeepsOwned(s: Program, op: Op)
    requires Owned(s)
    ensures Owned(Exec(s, op))
    decreases op
  {
    if Legal(s, op) {
      match op
      case Construct(w, kind) => ConstructKeepsOwned(s, w, kind);
      case ConstructNull(w) => RenameKeepsOwned(s, op);
      case MoveConstruct(w, source) => RenameKeepsOwned(s, op);
      case Swap(w, other) => RenameKeepsOwned(s, op);
      case AssignNull(w) => DropKeepsOwned(s, w, Exec(s, op));
      case Call(w, body) =>
        if s.wrappers[w].impl.Some? {
          DropKeepsOwned(s, w, BeforeBody(s, w));
          ExecAllKeepsOwned(BeforeBody(s, w), body);
        }
      case Destroy(w) => DropKeepsOwned(s, w, Exec(s, op));
    }
  }

  lemma {:induction false} ExecAllKeepsOwned(s: Program, ops: seq<Op>)
    requires Owned(s)
    ensures Owned(ExecAll(s, ops))
    decreases ops
  {
    if ops != [] {
      ExecKeepsOwned(s, ops[0]);
      ExecAllKeepsOwned(Exec(s, ops[0]), ops[1..]);
    }
  }

  /**
   * Over every program: no block is owned twice, none runs or is freed twice, none is released by the
   * wrong type's functions, and once all wrappers are gone every block has been freed exactly once.
   */
  lemma {:induction false} SingleShot(ops: seq<Op>)
    ensures var s := ExecAll(EMPTY, ops);
            && !s.heap.undefined
            && OneOwner(s)
            && (forall b | 0 <= b < |s.heap.blocks| :: s.heap.blocks[b].frees <= 1 && s.heap.blocks[b].runs <= 1)
            && (s.wrappers == map[] ==> forall b | 0 <= b < |s.heap.blocks| :: s.heap.blocks[b].frees == 1)
  {
    ExecAllKeepsOwned(EMPTY, ops);
    var s := ExecAll(EMPTY, ops);
    forall b: nat | b < |s.heap.blocks|
      ensures s.heap.blocks[b].frees <= 1 && s.heap.blocks[b].runs <= 1
      ensures s.wrappers == map[] ==> s.heap.blocks[b].frees == 1
    {
      assert Accounted(s, b);
    }
  }

  /** When a handler body starts, its block is freed and no wrapper owns it any more. */
  lemma {:induction false} ReleasedBeforeBody(s: Program, w: Name)
    requires Owned(s) && w in s.wrappers && s.wrappers[w].impl.Some?
    ensures var b := s.wrappers[w].impl.value;
            var r := BeforeBody(s, w);
            && r.heap.blocks[b].frees == 1 && r.heap.blocks[b].runs == 1
            && !HasOwner(r, b)
            && Owned(r)
  {
    var b := s.wrappers[w].impl.value;
    assert HasOwner(s, b) && Accounted(s, b);
    DropKeepsOwned(s, w, BeforeBody(s, w));
  }

  /** A call enters the handler exactly once, and whatever the handler does is done after that. */
  lemma {:induction false} CallRunsOnce(s: Program, w: Name, body: seq<Op>)
    requires Owned(s) && w in s.wrappers && s.wrappers[w].impl.Some?
    ensures var b := s.wrappers[w].impl.value;
            var entered := Exec(s, Call(w, []));
            var r := Exec(s, Call(w, body));
            && b < |entered.heap.blocks| && entered.heap.blocks[b] == Block(s.heap.blocks[b].kind, 1, 1)
            && entered.wrappers == s.wrappers[w := s.wrappers[w].(impl := None)]
            && r == ExecAll(entered, body)
            && b < |r.heap.blocks| && r.heap.blocks[b].runs == 1 && r.heap.blocks[b].frees == 1
  {
    var b := s.wrappers[w].impl.value;
    assert HasOwner(s, b) && Accounted(s, b);
    ReleasedBeforeBody(s, w);
    assert Exec(s, Call(w, [])) == BeforeBody(s, w);
    SpentStays(BeforeBody(s, w), body, b);
  }

  /** A block that has run and been freed stays as it is. */
  lemma {:induction false} SpentStays(s: Program, ops: seq<Op>, b: nat)
    requires Owned(s) && b < |s.heap.blocks| && s.heap.blocks[b].runs == 1 && s.heap.blocks[b].frees == 1
    ensures var r := ExecAll(s, ops);
            b < |r.heap.blocks| && r.heap.blocks[b].runs == 1 && r.heap.blocks[b].frees == 1
    decreases ops
  {
    if ops != [] {
      ExecKeepsOwned(s, ops[0]);
      SpentStaysOne(s, ops[0], b);
      SpentStays(Exec(s, ops[0]), ops[1..], b);
    }
  }

  lemma {:induction false} SpentStaysOne(s: Program, op: Op, b: nat)
    requires Owned(s) && b < |s.heap.blocks| && s.heap.blocks[b].runs == 1 && s.heap.blocks[b].frees == 1
    ensures var r := Exec(s, op);
            b < |r.heap.blocks| && r.heap.blocks[b].runs == 1 && r.heap.blocks[b].frees == 1
    decreases op
  {
    assert Accounted(s, b) && !HasOwner(s, b);
    if Legal(s, op) && op.Call? && s.wrappers[op.w].impl.Some? {
      ReleasedBeforeBody(s, op.w);
      SpentStays(BeforeBody(s, op.w), op.body, b);
    }
  }

  // ---------------------------------------------------------------- the wrapper itself

  class HandlerHeap {
    var blocks: seq<Block>
    var undefined: bool

    constructor ()
      ensures View() == Heap([], false)
    {
      blocks, undefined := [], false;
    }

    ghost function View(): Heap
      reads this
    {
      Heap(blocks, undefined)
    }

    method Create(kind: Kind) returns (b: nat)
      modifies this
      ensures View() == Created(old(View()), kind) && b == |old(blocks)|
    {
      b := |blocks|;
      blocks := blocks + [Block(kind, 0, 0)];
    }

    method Free(b: nat, kind: Kind)
      modifies this
      ensures View() == Released(old(View()), Wrapper(Some(kind), Some(b)))
    {
      if b < |blocks| && blocks[b].kind == kind {
        blocks := blocks[b := blocks[b].(frees := blocks[b].frees + 1)];
      } else {
        undefined := true;
      }
    }

    method Run(b: nat, kind: Kind)
      modifies this
      ensures View() == Entered(old(View()), Wrapper(Some(kind), Some(b)))
    {
      if b < |blocks| && blocks[b].kind == kind {
        blocks := blocks[b := blocks[b].(runs := blocks[b].runs + 1)];
      }
    }
  }

  class AnyCompletionHandler {
    var fnTable: Option<Kind>
    var impl: Option<nat>

    ghost function View(): Wrapper
      reads this
    {
      Wrapper(fnTable, impl)
    }

    ghost predicate Valid()
      reads this
    {
      impl.Some? ==> fnTable.Some?
    }

    constructor Null()
      ensures View() == NULL_WRAPPER
    {
      fnTable, impl := None, None;
    }

    constructor From(kind: Kind, heap: HandlerHeap)
      modifies heap
      ensures View() == Wrapper(Some(kind), Some(|old(heap.blocks)|)) && Valid()
      ensures heap.View() == Created(old(heap.View()), kind)
    {
      var b := heap.Create(kind);
      fnTable, impl := Some(kind), Some(b);
    }

    constructor Move(other: AnyCompletionHandler)
      modifies other
      ensures View() == old(other.View()) && other.View() == NULL_WRAPPER
    {
      fnTable, impl := other.fnTable, other.impl;
      new;
      other.fnTable := None;
      other.impl := None;
    }

    method Swap(other: AnyCompletionHandler)
      modifies this, other
      ensures View() == old(other.View()) && other.View() == old(View())
    {
      var t := fnTable;
      fnTable := other.fnTable;
      other.fnTable := t;
      var i := impl;
      impl := other.impl;
      other.impl := i;
    }

    /** The wrapper changes places with an empty temporary, which then dies with what the wrapper held. */
    method AssignNull(heap: HandlerHeap)
      requires Valid()
      modifies this, heap
      ensures View() == NULL_WRAPPER
      ensures heap.View() == Released(old(heap.View()), old(View()))
    {
      var temporary := new AnyCompletionHandler.Null();
      temporary.Swap(this);
      temporary.Destroy(heap);
    }

    method Destroy(heap: HandlerHeap)
      requires Valid()
      modifies heap
      ensures heap.View() == Released(old(heap.View()), View())
    {
      if impl.Some? {
        heap.Free(impl.value, fnTable.value);
      }
    }

    /** Up to where the handler body starts; false stands for std::bad_function_call. */
    method Call(heap: HandlerHeap) returns (ok: bool)
      requires Valid()
      modifies this, heap
      ensures ok <==> old(impl).Some?
      ensures View() == old(View()).(impl := None)
      ensures heap.View() == Entered(Released(old(heap.View()), old(View())), old(View()))
    {
      if impl.None? {
        return false;
      }
      var block := impl.value;
      impl := None;
      heap.Free(block, fnTable.value);
      heap.Run(block, fnTable.value);
      return true;
    }
  }
}
