/** The table of object handles shared with the compiled web UI: a growable array whose
    free slots form a linked list through the array itself, with 32 slots of borrow
    stack and four constants below. */
module HandleSlab {
  import opened Prelude

  datatype JsValue = Undefined | Null | True | False | Number(n: nat) | Object(id: nat)

  const RESERVED: nat := 36
  const STACK: nat := 32

  // Slot free[i] holds the number of the next free slot.
  ghost predicate LinkAt(heap: seq<JsValue>, free: seq<nat>, i: int)
    requires 0 <= i < |free| && free[i] < |heap|
  {
    heap[free[i]] == Number(if i + 1 < |free| then free[i + 1] else |heap|)
  }

  // free lists, in order, the slots reached from next; the last link leads one past
  // the end of the heap.
  ghost predicate Chain(heap: seq<JsValue>, next: nat, free: seq<nat>) {
    && RESERVED <= |heap|
    && (forall i | 0 <= i < |free| :: RESERVED <= free[i] < |heap|)
    && (forall i, j | 0 <= i < j < |free| :: free[i] != free[j])
    && next == (if free == [] then |heap| else free[0])
    && (forall i | 0 <= i < |free| :: LinkAt(heap, free, i))
  }

  ghost predicate Describable(heap: seq<JsValue>, next: nat) {
    exists free :: Chain(heap, next, free)
  }

  // A handle below 36 or in use may be dropped. Dropping any other slot ties the free
  // list into a loop: afterwards no list of free slots describes it.
  lemma {:induction false} DropKeepsChainIff(heap: seq<JsValue>, next: nat, free: seq<nat>, idx: nat)
    requires Chain(heap, next, free) && RESERVED <= idx < |heap|
    ensures Describable(heap[idx := Number(next)], idx) <==> idx !in free
  {
    var heap' := heap[idx := Number(next)];
    if idx !in free {
      var free' := [idx] + free;
      GiveBack(heap, next, free, idx);
    } else {
      var p :| 0 <= p < |free| && free[p] == idx;
      forall free' | Chain(heap', idx, free') ensures false {
        Loops(heap, next, free, p, free', p);
      }
    }
  }

  // A second list through the tied heap retraces the first, up to where it bites.
  lemma {:induction false} Loops(heap: seq<JsValue>, next: nat, free: seq<nat>, p: nat, free': seq<nat>, i: nat)
    requires Chain(heap, next, free) && p < |free| && i <= p
    requires Chain(heap[free[p] := Number(next)], free[p], free')
    ensures i + 1 < |free'| && free'[i + 1] == free[i]
  {
    var heap' := heap[free[p] := Number(next)];
    assert free' != [] && free'[0] == free[p];
    if i > 0 {
      Loops(heap, next, free, p, free', i - 1);
      assert free'[i] == free[i - 1] && free[i - 1] != free[p];
      assert LinkAt(heap, free, i - 1);
    }
    assert LinkAt(heap', free', i);
  }

  ghost function Elems(s: seq<nat>): (r: set<nat>)
    ensures forall x :: x in r <==> x in s
  {
    if s == [] then {} else {s[0]} + Elems(s[1..])
  }

  lemma {:induction false} DistinctSize(s: seq<nat>)
    requires forall i, j | 0 <= i < j < |s| :: s[i] != s[j]
    ensures |Elems(s)| == |s|
  {
    if s != [] {
      DistinctSize(s[1..]);
      assert s[0] !in s[1..];
    }
  }

  // The slots a heap of this length has for handles.
  ghost function Slots(length: nat): (r: set<nat>)
    ensures forall x :: x in r <==> RESERVED <= x < length
    ensures length >= RESERVED ==> |r| == length - RESERVED
  {
    if length <= RESERVED then {} else Slots(length - 1) + {length - 1}
  }

  // The handles in use and what they stand for.
  ghost function HandlesOf(heap: seq<JsValue>, free: seq<nat>): map<nat, JsValue> {
    map x: nat | RESERVED <= x < |heap| && x !in free :: heap[x]
  }

  lemma {:induction false} SplitSize(all: set<nat>, held: set<nat>, live: set<nat>)
    requires held <= all && forall x :: x in live <==> x in all && x !in held
    ensures |live| + |held| == |all|
  {
    assert live == all - held;
  }

  // Conservation: every slot is reserved, free or in use, and in only one way.
  lemma {:induction false} SlotsConserved(heap: seq<JsValue>, next: nat, free: seq<nat>)
    requires Chain(heap, next, free)
    ensures |HandlesOf(heap, free)| + |free| + RESERVED == |heap|
  {
    DistinctSize(free);
    var live := HandlesOf(heap, free);
    SplitSize(Slots(|heap|), Elems(free), live.Keys);
    assert |live| == |live.Keys|;
  }

  predicate Constants(heap: seq<JsValue>) {
    |heap| >= RESERVED && heap[32] == Undefined && heap[33] == Null && heap[34] == True && heap[35] == False
  }

  lemma {:induction false} TakeFirst(heap: seq<JsValue>, next: nat, free: seq<nat>, obj: JsValue)
    requires Chain(heap, next, free) && free != []
    ensures heap[next].Number? && Chain(heap[next := obj], heap[next].n, free[1..])
  {
    assert LinkAt(heap, free, 0);
    var heap', rest := heap[next := obj], free[1..];
    forall i | 0 <= i < |rest| ensures LinkAt(heap', rest, i) {
      assert LinkAt(heap, free, i + 1);
    }
  }

  lemma {:induction false} TakeFirstHandles(heap: seq<JsValue>, next: nat, free: seq<nat>, obj: JsValue)
    requires Chain(heap, next, free) && free != []
    ensures next !in HandlesOf(heap, free)
    ensures HandlesOf(heap[next := obj], free[1..]) == HandlesOf(heap, free)[next := obj]
  {
    var rest := free[1..];
    assert free == [next] + rest && next !in rest;
  }

  lemma {:induction false} GrowByOne(heap: seq<JsValue>, next: nat, free: seq<nat>)
    requires Chain(heap, next, free) && next == |heap|
    ensures free == [] && Chain(heap + [Number(|heap| + 1)], next, [next])
    ensures HandlesOf(heap + [Number(|heap| + 1)], [next]) == HandlesOf(heap, free)
  {
    assert LinkAt(heap + [Number(|heap| + 1)], [next], 0);
  }

  lemma {:induction false} GiveBack(heap: seq<JsValue>, next: nat, free: seq<nat>, idx: nat)
    requires Chain(heap, next, free) && RESERVED <= idx < |heap| && idx !in free
    ensures Chain(heap[idx := Number(next)], idx, [idx] + free)
    ensures HandlesOf(heap[idx := Number(next)], [idx] + free) == HandlesOf(heap, free) - {idx}
  {
    var heap', free' := heap[idx := Number(next)], [idx] + free;
    forall i | 0 <= i < |free'| ensures LinkAt(heap', free', i) {
      if i > 0 {
        assert LinkAt(heap, free, i - 1) && free'[i] == free[i - 1];
      }
    }
  }

  // Writing below the handles changes neither the free list nor the handles.
  lemma {:induction false} WriteBelow(heap: seq<JsValue>, next: nat, free: seq<nat>, i: nat, obj: JsValue)
    requires Chain(heap, next, free) && i < RESERVED
    ensures Chain(heap[i := obj], next, free)
    ensures HandlesOf(heap[i := obj], free) == HandlesOf(heap, free)
  {
    var heap' := heap[i := obj];
    forall j | 0 <= j < |free| ensures LinkAt(heap', free, j) {
      assert LinkAt(heap, free, j);
    }
  }

  class Slab {
    var heap: seq<JsValue>
    var heapNext: nat
    var stackPointer: nat
    ghost var free: seq<nat>

    // The free list is well formed and the constants are in place.
    ghost predicate Valid()
      reads this
    {
      Chain(heap, heapNext, free) && Constants(heap)
    }

    ghost function Handles(): map<nat, JsValue>
      reads this
    {
      HandlesOf(heap, free)
    }

    constructor ()
      ensures Valid() && Handles() == map[] && stackPointer == STACK
      ensures heap[..STACK] == seq(STACK, _ => Undefined)
    {
      heap := seq(STACK, _ => Undefined) + [Undefined, Null, True, False];
      heapNext := RESERVED;
      stackPointer := STACK;
      free := [];
    }

    // heap.push(heap.length + 1), when no slot is free
    method Grow()
      requires Valid() && heapNext == |heap|
      modifies this`heap, this`free
      ensures Valid() && old(free) == [] && free == [heapNext] && Handles() == old(Handles())
      ensures |heap| == |old(heap)| + 1 && heap[..RESERVED] == old(heap)[..RESERVED]
    {
      GrowByOne(heap, heapNext, free);
      heap := heap + [Number(|heap| + 1)];
      free := [heapNext];
    }

    // A new handle: never one in use, never a reserved slot, and fresh space is taken
    // only when no slot is free.
    method AddHeapObject(obj: JsValue) returns (idx: nat)
      requires Valid()
      modifies this`heap, this`heapNext, this`free
      ensures Valid() && RESERVED <= idx < |heap|
      ensures idx !in old(Handles()) && Handles() == old(Handles())[idx := obj]
      ensures |heap| == |old(heap)| + if old(free) == [] then 1 else 0
      ensures heap[..RESERVED] == old(heap)[..RESERVED]
      ensures old(free) != [] ==> idx == old(free)[0] && free == old(free)[1..]
    {
      if heapNext == |heap| {
        Grow();
      }
      TakeFirst(heap, heapNext, free, obj);
      TakeFirstHandles(heap, heapNext, free, obj);
      idx := heapNext;
      heapNext := heap[idx].n;
      heap := heap[idx := obj];
      free := free[1..];
    }

    method DropObject(idx: nat)
      requires Valid() && (idx < RESERVED || idx in Handles())
      modifies this`heap, this`heapNext, this`free
      ensures Valid() && |heap| == |old(heap)| && heap[..RESERVED] == old(heap)[..RESERVED]
      ensures idx < RESERVED ==> heap == old(heap) && free == old(free)
      ensures idx >= RESERVED ==> Handles() == old(Handles()) - {idx} && free == [idx] + old(free)
    {
      if idx < RESERVED {
        return;
      }
      GiveBack(heap, heapNext, free, idx);
      heap := heap[idx := Number(heapNext)];
      heapNext := idx;
      free := [idx] + free;
    }

    method TakeObject(idx: nat) returns (obj: JsValue)
      requires Valid() && (idx < RESERVED || idx in Handles())
      modifies this`heap, this`heapNext, this`free
      ensures Valid() && obj == old(heap)[idx]
      ensures idx >= RESERVED ==> Handles() == old(Handles()) - {idx} && free == [idx] + old(free)
      ensures idx < RESERVED ==> heap == old(heap) && free == old(free)
    {
      obj := heap[idx];
      DropObject(idx);
    }

    // Dropping a handle and asking for one again gives the same slot back.
    method DropThenAdd(idx: nat, obj: JsValue) returns (again: nat)
      requires Valid() && idx in Handles()
      modifies this`heap, this`heapNext, this`free
      ensures Valid() && again == idx && Handles() == old(Handles())[idx := obj]
      ensures free == old(free) && |heap| == |old(heap)|
    {
      DropObject(idx);
      again := AddHeapObject(obj);
    }

    // Push on the borrow stack, which grows down from slot 31 to slot 1.
    method AddBorrowedObject(obj: JsValue) returns (r: Result<nat>)
      requires Valid() && 1 <= stackPointer <= STACK
      modifies this`heap, this`stackPointer
      ensures Valid() && |heap| == |old(heap)| && Handles() == old(Handles())
      ensures (heap[..STACK], stackPointer, r.Ok?) == Push(old(heap)[..STACK], old(stackPointer), obj)
      ensures r.Ok? <==> old(stackPointer) > 1
      ensures r.Ok? ==> r.value == stackPointer == old(stackPointer) - 1 && heap[r.value] == obj
      ensures r.Ok? ==> forall i | 0 <= i < |heap| && i != r.value :: heap[i] == old(heap)[i]
      ensures r == Err ==> heap == old(heap) && stackPointer == old(stackPointer)
    {
      if stackPointer == 1 {
        return Err;
      }
      stackPointer := stackPointer - 1;
      WriteBelow(heap, heapNext, free, stackPointer, obj);
      heap := heap[stackPointer := obj];
      return Ok(stackPointer);
    }

    // heap[stack_pointer++] = undefined
    method ReleaseBorrowed()
      requires Valid() && stackPointer < STACK
      modifies this`heap, this`stackPointer
      ensures Valid() && |heap| == |old(heap)| && Handles() == old(Handles())
      ensures (heap[..STACK], stackPointer) == Pop(old(heap)[..STACK], old(stackPointer))
      ensures stackPointer == old(stackPointer) + 1 && heap[old(stackPointer)] == Undefined
      ensures forall i | 0 <= i < |heap| && i != old(stackPointer) :: heap[i] == old(heap)[i]
    {
      WriteBelow(heap, heapNext, free, stackPointer, Undefined);
      heap := heap[stackPointer := Undefined];
      stackPointer := stackPointer + 1;
    }
  }

  // ------------------------------------------------------------- the borrow stack

  function Push(slots: seq<JsValue>, sp: nat, obj: JsValue): (seq<JsValue>, nat, bool)
    requires 1 <= sp <= |slots|
  {
    if sp == 1 then (slots, sp, false) else (slots[sp - 1 := obj], sp - 1, true)
  }

  function Pop(slots: seq<JsValue>, sp: nat): (seq<JsValue>, nat)
    requires sp < |slots|
  {
    (slots[sp := Undefined], sp + 1)
  }

  // A call that borrows its argument and makes further such calls while it runs.
  datatype Call = Call(obj: JsValue, nested: seq<Call>)

  function Depth(c: Call): nat {
    1 + DepthAll(c.nested)
  }

  function DepthAll(cs: seq<Call>): nat {
    if cs == [] then 0
    else var d, e := Depth(cs[0]), DepthAll(cs[1..]); if d > e then d else e
  }

  // The adapter: push, run the body, and pop in `finally`, which happens even when the
  // push itself threw. The slots cover the stack and the slot above it.
  function Invoke(slots: seq<JsValue>, sp: nat, c: Call): (r: (seq<JsValue>, nat, bool))
    requires 1 <= sp < |slots|
    ensures |r.0| == |slots| && r.1 == if r.2 then sp else sp + 1
    decreases c
  {
    var (pushed, sp1, ok) := Push(slots, sp, c.obj);
    if !ok then
      var (popped, sp2) := Pop(pushed, sp1);
      (popped, sp2, false)
    else
      var (ran, sp2, fine) := InvokeAll(pushed, sp1, c.nested);
      var (popped, sp3) := Pop(ran, sp2);
      (popped, sp3, fine)
  }

  function InvokeAll(slots: seq<JsValue>, sp: nat, cs: seq<Call>): (r: (seq<JsValue>, nat, bool))
    requires 1 <= sp < |slots|
    ensures |r.0| == |slots| && r.1 == if r.2 then sp else sp + 1
    decreases cs
  {
    if cs == [] then (slots, sp, true)
    else
      var (ran, sp1, fine) := Invoke(slots, sp, cs[0]);
      if fine then InvokeAll(ran, sp1, cs[1..]) else (ran, sp1, false)
  }

  ghost predicate Clean(slots: seq<JsValue>, sp: nat) {
    forall i | 0 <= i < sp && i < |slots| :: slots[i] == Undefined
  }

  // Any tree of nested calls restores the borrow stack exactly when its depth leaves
  // slot 0 alone; a deeper one ends with the stack pointer one too high.
  lemma {:induction false} NestingRestoresIff(slots: seq<JsValue>, sp: nat, c: Call)
    requires 1 <= sp < |slots| && Clean(slots, sp)
    ensures Invoke(slots, sp, c).2 <==> Depth(c) < sp
    ensures Invoke(slots, sp, c) == (slots, sp, true) <==> Depth(c) < sp
    decreases c
  {
    if sp > 1 {
      var (pushed, sp1, _) := Push(slots, sp, c.obj);
      NestingAll(pushed, sp1, c.nested);
      if Depth(c) < sp {
        assert pushed[sp1 := Undefined] == slots;
      }
    }
  }

  lemma {:induction false} NestingAll(slots: seq<JsValue>, sp: nat, cs: seq<Call>)
    requires 1 <= sp < |slots| && Clean(slots, sp)
    ensures InvokeAll(slots, sp, cs).2 <==> DepthAll(cs) < sp
    ensures InvokeAll(slots, sp, cs) == (slots, sp, true) <==> DepthAll(cs) < sp
    decreases cs
  {
    if cs != [] {
      NestingRestoresIff(slots, sp, cs[0]);
      if Depth(cs[0]) < sp {
        NestingAll(slots, sp, cs[1..]);
      }
    }
  }
}
