/** The reference counts that decide when a Rust closure held by JavaScript is
    destroyed: `makeMutClosure`, `makeClosure` and `__wbindgen_cb_drop`. */
module ClosureLifetime {

  const NULLPTR: nat := 0

  // `frames` are the pointers that running invocations were given, outermost first;
  // `destroyed` the pointers the destructor was called with, `released` how often a
  // drop told Rust to free the closure itself.
  datatype State = State(a: nat, cnt: int, frames: seq<nat>, destroyed: seq<nat>, released: nat)

  datatype Event = Invoke | Return | Drop

  function Initial(a: nat): State {
    State(a, 1, [], [], 0)
  }

  predicate Enabled(s: State, e: Event) {
    e == Return ==> s.frames != []
  }

  // `mutable` closures hide their pointer while they run.
  function Step(mutable: bool, s: State, e: Event): State
    requires Enabled(s, e)
  {
    match e
    case Invoke =>
      s.(cnt := s.cnt + 1, frames := s.frames + [s.a], a := if mutable then NULLPTR else s.a)
    case Return =>
      var a := s.frames[|s.frames| - 1];
      var s' := s.(cnt := s.cnt - 1, frames := s.frames[..|s.frames| - 1]);
      if s'.cnt == 0 then
        if mutable then s'.(destroyed := s.destroyed + [a])
        else s'.(destroyed := s.destroyed + [s.a], a := NULLPTR)
      else if mutable then s'.(a := a) else s'
    case Drop =>
      if s.cnt == 1 then s.(cnt := 0, a := NULLPTR, released := s.released + 1)
      else s.(cnt := s.cnt - 1)
  }

  function After(mutable: bool, a: nat, es: seq<Event>, n: nat): State
    requires n <= |es| && WellNested(mutable, a, es, n)
    decreases n, 1
  {
    if n == 0 then Initial(a) else Step(mutable, After(mutable, a, es, n - 1), es[n - 1])
  }

  // Returns match invocations.
  predicate WellNested(mutable: bool, a: nat, es: seq<Event>, n: nat)
    requires n <= |es|
    decreases n, 0
  {
    n == 0 || (WellNested(mutable, a, es, n - 1) && Enabled(After(mutable, a, es, n - 1), es[n - 1]))
  }

  ghost predicate DroppedBy(es: seq<Event>, n: nat)
    requires n <= |es|
  {
    exists i :: 0 <= i < n && es[i] == Drop
  }

  ghost predicate SingleDrop(es: seq<Event>) {
    forall i, j | 0 <= i < j < |es| :: !(es[i] == Drop && es[j] == Drop)
  }

  // No invocation once the count has reached zero.
  ghost predicate NoFreshCall(mutable: bool, a: nat, es: seq<Event>, n: nat)
    requires n <= |es| && WellNested(mutable, a, es, n)
  {
    n == 0 ||
    (NoFreshCall(mutable, a, es, n - 1) && !(es[n - 1] == Invoke && After(mutable, a, es, n - 1).cnt == 0))
  }

  // The pointers running invocations were given, and the one kept for the next.
  ghost predicate Pointers(mutable: bool, a: nat, s: State) {
    if mutable then
      && (forall i | 0 <= i < |s.frames| :: s.frames[i] == if i == 0 then a else NULLPTR)
      && s.a == (if s.cnt > 0 && s.frames == [] then a else NULLPTR)
    else
      && (forall i | 0 <= i < |s.frames| :: s.frames[i] == a)
      && s.a == (if s.cnt > 0 then a else NULLPTR)
  }

  // What holds at every moment of such a run.
  ghost predicate Held(mutable: bool, a: nat, s: State, dropped: bool) {
    && s.cnt == |s.frames| + (if dropped then 0 else 1)
    && (s.cnt > 0 ==> s.destroyed == [] && s.released == 0)
    && (s.cnt == 0 ==> (s.destroyed == [a] && s.released == 0) || (s.destroyed == [] && s.released == 1))
    && Pointers(mutable, a, s)
  }

  lemma {:induction false} HeldStep(mutable: bool, a: nat, s: State, e: Event, dropped: bool)
    requires Held(mutable, a, s, dropped) && Enabled(s, e)
    requires e == Invoke ==> s.cnt > 0
    requires e == Drop ==> !dropped
    ensures Held(mutable, a, Step(mutable, s, e), dropped || e == Drop)
  {
  }

  lemma {:induction false} AlwaysHeld(mutable: bool, a: nat, es: seq<Event>, n: nat)
    requires n <= |es| && WellNested(mutable, a, es, n) && SingleDrop(es) && NoFreshCall(mutable, a, es, n)
    ensures Held(mutable, a, After(mutable, a, es, n), DroppedBy(es, n))
  {
    if n > 0 {
      AlwaysHeld(mutable, a, es, n - 1);
      var e := es[n - 1];
      assert DroppedBy(es, n) <==> DroppedBy(es, n - 1) || e == Drop;
      HeldStep(mutable, a, After(mutable, a, es, n - 1), e, DroppedBy(es, n - 1));
    }
  }

  // Exactly one of the two ways of freeing the closure happens, once the closure has
  // been dropped and no call is in flight and not before; the destructor gets the
  // original pointer; and a re-entrant call of a mutable closure sees the null pointer.
  lemma {:induction false} ClosureFreedOnce(mutable: bool, a: nat, es: seq<Event>, n: nat)
    requires n <= |es| && WellNested(mutable, a, es, n) && SingleDrop(es) && NoFreshCall(mutable, a, es, n)
    ensures var s := After(mutable, a, es, n);
            && |s.destroyed| + s.released == (if DroppedBy(es, n) && s.frames == [] then 1 else 0)
            && (forall p | p in s.destroyed :: p == a)
            && (mutable ==> forall i | 0 < i < |s.frames| :: s.frames[i] == NULLPTR)
            && (s.frames != [] ==> s.frames[0] == a)
  {
    AlwaysHeld(mutable, a, es, n);
  }

  // The condition is needed: one fresh call after the end frees the closure again.
  lemma {:induction false} FreshCallFreesTwice(mutable: bool, a: nat, es: seq<Event>)
    requires WellNested(mutable, a, es, |es|) && SingleDrop(es) && NoFreshCall(mutable, a, es, |es|)
    requires After(mutable, a, es, |es|).cnt == 0
    ensures var s := Step(mutable, Step(mutable, After(mutable, a, es, |es|), Invoke), Return);
            |s.destroyed| + s.released == 2 && s.destroyed[|s.destroyed| - 1] == NULLPTR
  {
    AlwaysHeld(mutable, a, es, |es|);
  }

  // The closure object itself; the caller passes back to Return what Invoke gave it.
  class Closure {
    const mutable: bool
    var a: nat
    var cnt: int
    ghost var frames: seq<nat>
    ghost var destroyed: seq<nat>
    ghost var released: nat

    ghost function View(): State
      reads this
    {
      State(a, cnt, frames, destroyed, released)
    }

    constructor (mutable: bool, arg0: nat)
      ensures View() == Initial(arg0) && this.mutable == mutable
    {
      this.mutable := mutable;
      a, cnt := arg0, 1;
      frames, destroyed, released := [], [], 0;
    }

    method Enter() returns (saved: nat)
      modifies this
      ensures View() == Step(mutable, old(View()), Invoke) && saved == old(a)
    {
      cnt := cnt + 1;
      saved := a;
      frames := frames + [a];
      if mutable {
        a := NULLPTR;
      }
    }

    // The `finally` of an invocation; dtor says that the destructor was called.
    method Leave(saved: nat) returns (dtor: bool)
      requires frames != [] && saved == frames[|frames| - 1]
      modifies this
      ensures View() == Step(mutable, old(View()), Return) && (dtor <==> cnt == 0)
    {
      cnt := cnt - 1;
      frames := frames[..|frames| - 1];
      dtor := cnt == 0;
      if mutable {
        if dtor {
          destroyed := destroyed + [saved];
        } else {
          a := saved;
        }
      } else if dtor {
        destroyed := destroyed + [a];
        a := NULLPTR;
      }
    }

    method CbDrop() returns (free: bool)
      modifies this
      ensures View() == Step(mutable, old(View()), Drop) && (free <==> old(cnt) == 1)
    {
      free := cnt == 1;
      cnt := cnt - 1;
      if free {
        a := NULLPTR;
        released := released + 1;
      }
    }
  }
}
