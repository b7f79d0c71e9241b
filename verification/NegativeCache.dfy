/** The bounded least-recently-used map that remembers identifiers the server did not
    know, with the time each memory runs out. Entries are kept most recent first. */
module NegativeCache {
  import opened Prelude
  import opened KeyedTable

  const NXCACHE_SIZE: nat := 2048

  datatype Entry = Entry(id: Id, expires: int)

  ghost function Names(c: seq<Entry>): set<Id> {
    if c == [] then {} else {c[0].id} + Names(c[1..])
  }

  ghost predicate Distinct(c: seq<Entry>) {
    c != [] ==> c[0].id !in Names(c[1..]) && Distinct(c[1..])
  }

  function Lookup(c: seq<Entry>, id: Id): Option<int> {
    if c == [] then None else if c[0].id == id then Some(c[0].expires) else Lookup(c[1..], id)
  }

  function Without(c: seq<Entry>, id: Id): seq<Entry> {
    if c == [] then [] else if c[0].id == id then c[1..] else [c[0]] + Without(c[1..], id)
  }

  // `get`: a hit becomes the most recent entry.
  function Touch(c: seq<Entry>, id: Id): seq<Entry> {
    match Lookup(c, id)
    case None => c
    case Some(t) => [Entry(id, t)] + Without(c, id)
  }

  // `put`: insert or overwrite as the most recent entry, dropping the least recent
  // one when that makes too many.
  function Insert(c: seq<Entry>, cap: nat, id: Id, expires: int): seq<Entry> {
    var d := Fronted(c, id, expires);
    if |d| > cap then d[..cap] else d
  }

  // The identifiers more recent than id.
  function Ahead(c: seq<Entry>, id: Id): set<Id> {
    if c == [] || c[0].id == id then {} else {c[0].id} + Ahead(c[1..], id)
  }

  lemma {:induction false} LookupNames(c: seq<Entry>, id: Id)
    ensures Lookup(c, id).Some? <==> id in Names(c)
    ensures Ahead(c, id) <= Names(c)
  {
    if c != [] {
      LookupNames(c[1..], id);
    }
  }

  // Each entry ahead of id takes a place of its own.
  lemma {:induction false} AheadCons(c: seq<Entry>, id: Id)
    requires Distinct(c) && c != [] && c[0].id != id
    ensures Ahead(c, id) == {c[0].id} + Ahead(c[1..], id) && |Ahead(c, id)| == 1 + |Ahead(c[1..], id)|
  {
    LookupNames(c[1..], id);
  }

  lemma {:induction false} AheadFits(c: seq<Entry>, id: Id)
    requires Distinct(c) && Lookup(c, id).Some?
    ensures |Ahead(c, id)| < |c|
  {
    if c[0].id != id {
      AheadCons(c, id);
      AheadFits(c[1..], id);
    }
  }

  lemma {:induction false} ConsTail(e: Entry, c: seq<Entry>)
    ensures ([e] + c)[1..] == c
  {
  }

  lemma {:induction false} WithoutNames(c: seq<Entry>, x: Id)
    requires Distinct(c)
    ensures Distinct(Without(c, x)) && Names(Without(c, x)) == Names(c) - {x}
    ensures |Without(c, x)| == if Lookup(c, x).Some? then |c| - 1 else |c|
  {
    if c != [] && c[0].id != x {
      WithoutNames(c[1..], x);
      ConsTail(c[0], Without(c[1..], x));
    }
  }

  lemma {:induction false} WithoutOthers(c: seq<Entry>, x: Id, id: Id)
    requires Distinct(c) && id != x
    ensures Lookup(Without(c, x), id) == Lookup(c, id)
    ensures Lookup(c, id).Some? ==> Ahead(Without(c, x), id) == Ahead(c, id) - {x}
  {
    if c != [] {
      if c[0].id == x {
        LookupNames(c[1..], id);
      } else {
        WithoutOthers(c[1..], x, id);
        ConsTail(c[0], Without(c[1..], x));
      }
    }
  }

  lemma {:induction false} Truncate(c: seq<Entry>, n: nat, id: Id)
    requires Distinct(c) && n <= |c| && Lookup(c, id).Some?
    ensures Lookup(c[..n], id) == if |Ahead(c, id)| < n then Lookup(c, id) else None
    ensures |Ahead(c, id)| < n ==> Ahead(c[..n], id) == Ahead(c, id)
  {
    if n > 0 && c[0].id != id {
      AheadCons(c, id);
      Truncate(c[1..], n - 1, id);
      assert c[..n][1..] == c[1..][..n - 1];
    }
  }

  lemma {:induction false} TruncateNames(c: seq<Entry>, n: nat)
    requires Distinct(c) && n <= |c|
    ensures Distinct(c[..n]) && Names(c[..n]) <= Names(c)
  {
    if n > 0 {
      TruncateNames(c[1..], n - 1);
      assert c[..n][1..] == c[1..][..n - 1];
    }
  }

  ghost predicate Valid(c: seq<Entry>, cap: nat) {
    Distinct(c) && |c| <= cap
  }

  lemma {:induction false} TouchValid(c: seq<Entry>, cap: nat, id: Id)
    requires Valid(c, cap)
    ensures Valid(Touch(c, id), cap) && Lookup(Touch(c, id), id) == Lookup(c, id)
    ensures Lookup(c, id).Some? ==> Ahead(Touch(c, id), id) == {}
  {
    if Lookup(c, id).Some? {
      WithoutNames(c, id);
      ConsTail(Entry(id, Lookup(c, id).value), Without(c, id));
    }
  }

  lemma {:induction false} InsertValid(c: seq<Entry>, cap: nat, id: Id, t: int)
    requires Valid(c, cap) && cap > 0
    ensures Valid(Insert(c, cap, id, t), cap) && Lookup(Insert(c, cap, id, t), id) == Some(t)
    ensures Ahead(Insert(c, cap, id, t), id) == {}
  {
    WithoutNames(c, id);
    var d := Fronted(c, id, t);
    ConsTail(Entry(id, t), Without(c, id));
    if |d| > cap {
      TruncateNames(d, cap);
    }
  }

  // Looking x up moves x ahead of id and loses nothing.
  lemma {:induction false} TouchOther(c: seq<Entry>, cap: nat, x: Id, id: Id)
    requires Valid(c, cap) && id != x
    ensures Lookup(Touch(c, x), id) == Lookup(c, id)
    ensures Lookup(c, id).Some? ==>
              Ahead(Touch(c, x), id) == Ahead(c, id) + if Lookup(c, x).Some? then {x} else {}
  {
    if Lookup(c, x).Some? {
      WithoutOthers(c, x, id);
      ConsTail(Entry(x, Lookup(c, x).value), Without(c, x));
    }
  }

  // x put in front of the rest.
  function Fronted(c: seq<Entry>, x: Id, t: int): seq<Entry> {
    [Entry(x, t)] + Without(c, x)
  }

  lemma {:induction false} FrontedOther(c: seq<Entry>, x: Id, t: int, id: Id)
    requires Distinct(c) && id != x && Lookup(c, id).Some?
    ensures var d := Fronted(c, x, t);
            Distinct(d) && Lookup(d, id) == Lookup(c, id) && Ahead(d, id) == Ahead(c, id) + {x}
  {
    WithoutNames(c, x);
    WithoutOthers(c, x, id);
    ConsTail(Entry(x, t), Without(c, x));
  }

  // Remembering x moves x ahead of id, and forgets id exactly when that puts cap
  // other identifiers ahead of it.
  lemma {:induction false} InsertOther(c: seq<Entry>, cap: nat, x: Id, t: int, id: Id)
    requires Valid(c, cap) && id != x && Lookup(c, id).Some?
    ensures var now, before := Insert(c, cap, x, t), Ahead(c, id) + {x};
            && Lookup(now, id) == (if |before| < cap then Lookup(c, id) else None)
            && (|before| < cap ==> Ahead(now, id) == before)
  {
    var d := Fronted(c, x, t);
    FrontedOther(c, x, t, id);
    AheadFits(d, id);
    if |d| > cap {
      Truncate(d, cap, id);
    }
  }

  // ------------------------------------------------------- eviction over any history

  datatype Use = Get(id: Id) | Remember(id: Id, expires: int)

  function AfterUses(c: seq<Entry>, cap: nat, uses: seq<Use>, n: nat): seq<Entry>
    requires n <= |uses|
  {
    if n == 0 then c
    else
      var before := AfterUses(c, cap, uses, n - 1);
      match uses[n - 1]
      case Get(x) => Touch(before, x)
      case Remember(x, t) => Insert(before, cap, x, t)
  }

  // The identifiers that the first n uses really touched: every insertion, and every
  // lookup that hit.
  function Touched(c: seq<Entry>, cap: nat, uses: seq<Use>, n: nat): set<Id>
    requires n <= |uses|
  {
    if n == 0 then {}
    else
      Touched(c, cap, uses, n - 1) +
      match uses[n - 1]
      case Get(x) => if Lookup(AfterUses(c, cap, uses, n - 1), x).Some? then {x} else {}
      case Remember(x, _) => {x}
  }

  lemma {:induction false} UsesValid(c: seq<Entry>, cap: nat, uses: seq<Use>, n: nat)
    requires n <= |uses| && Valid(c, cap) && cap > 0
    ensures Valid(AfterUses(c, cap, uses, n), cap)
  {
    if n > 0 {
      UsesValid(c, cap, uses, n - 1);
      var before := AfterUses(c, cap, uses, n - 1);
      match uses[n - 1]
      case Get(x) => TouchValid(before, cap, x);
      case Remember(x, t) => InsertValid(before, cap, x, t);
    }
  }

  // The most recent entry is still there, with its time, if and only if fewer than
  // cap different identifiers have been touched since it was last used itself.
  lemma {:induction false} EvictionDistance(c: seq<Entry>, cap: nat, uses: seq<Use>, n: nat)
    requires n <= |uses| && Valid(c, cap) && c != []
    requires forall i | 0 <= i < n :: uses[i].id != c[0].id
    ensures Distance(AfterUses(c, cap, uses, n), cap, c[0], Touched(c, cap, uses, n))
  {
    if n > 0 {
      EvictionDistance(c, cap, uses, n - 1);
      UsesValid(c, cap, uses, n - 1);
      var before, others := AfterUses(c, cap, uses, n - 1), Touched(c, cap, uses, n - 1);
      assert uses[n - 1].id != c[0].id;
      match uses[n - 1]
      case Get(x) => GetDistance(before, cap, c[0], others, x);
      case Remember(x, t) => RememberDistance(before, cap, c[0], others, x, t);
    }
  }

  // Entry e is held, with exactly `others` ahead of it, if those are fewer than cap; if
  // they are more it is gone.
  ghost predicate Distance(c: seq<Entry>, cap: nat, e: Entry, others: set<Id>) {
    && Lookup(c, e.id) == (if |others| < cap then Some(e.expires) else None)
    && (|others| < cap ==> Ahead(c, e.id) == others)
  }

  lemma {:induction false} GetDistance(c: seq<Entry>, cap: nat, e: Entry, others: set<Id>, x: Id)
    requires Valid(c, cap) && Distance(c, cap, e, others) && x != e.id
    ensures Distance(Touch(c, x), cap, e, others + if Lookup(c, x).Some? then {x} else {})
  {
    Grow(others, x);
    TouchOther(c, cap, x, e.id);
    if Lookup(c, e.id).Some? {
      InHandful(c, cap, e.id, x);
    }
  }

  lemma {:induction false} RememberDistance(c: seq<Entry>, cap: nat, e: Entry, others: set<Id>, x: Id, t: int)
    requires Valid(c, cap) && Distance(c, cap, e, others) && x != e.id
    ensures Distance(Insert(c, cap, x, t), cap, e, others + {x})
  {
    Grow(others, x);
    if Lookup(c, e.id).Some? {
      InsertOther(c, cap, x, t, e.id);
    } else {
      InsertAbsent(c, cap, x, t, e.id);
    }
  }

  lemma {:induction false} Grow(s: set<Id>, x: Id)
    ensures |s| <= |s + {x}| && |s + {}| == |s|
  {
    assert s + {x} == if x in s then s else s + {x};
    assert s + {} == s;
  }

  // Entries ahead of a held one, and one further held entry, still fit below cap.
  lemma {:induction false} InHandful(c: seq<Entry>, cap: nat, id: Id, x: Id)
    requires Valid(c, cap) && id != x && Lookup(c, id).Some?
    ensures Lookup(c, x).Some? ==> |Ahead(c, id) + {x}| < cap
  {
    if Lookup(c, x).Some? {
      TouchOther(c, cap, x, id);
      TouchValid(c, cap, x);
      AheadFits(Touch(c, x), id);
    }
  }

  lemma {:induction false} InsertAbsent(c: seq<Entry>, cap: nat, x: Id, t: int, id: Id)
    requires Valid(c, cap) && id != x && Lookup(c, id) == None
    ensures Lookup(Insert(c, cap, x, t), id) == None
  {
    WithoutNames(c, x);
    WithoutOthers(c, x, id);
    var d := Fronted(c, x, t);
    ConsTail(Entry(x, t), Without(c, x));
    LookupNames(d, id);
    if |d| > cap {
      TruncateNames(d, cap);
      LookupNames(d[..cap], id);
    }
  }

  // ---------------------------------------------------------------------- the object

  class Lru {
    const cap: nat
    var entries: seq<Entry>

    ghost predicate Ok()
      reads this
    {
      cap > 0 && |entries| <= cap
    }

    constructor (cap: nat)
      requires cap > 0
      ensures Ok() && entries == [] && this.cap == cap
    {
      this.cap := cap;
      entries := [];
    }

    method Find(id: Id) returns (i: nat)
      ensures i <= |entries| && (i < |entries| ==> entries[i].id == id)
      ensures forall j | 0 <= j < i :: entries[j].id != id
    {
      i := 0;
      while i < |entries| && entries[i].id != id
        invariant i <= |entries|
        invariant forall j | 0 <= j < i :: entries[j].id != id
      {
        i := i + 1;
      }
    }

    method Contains(id: Id) returns (b: bool)
      requires Ok()
      ensures b <==> Lookup(entries, id).Some?
    {
      var i := Find(id);
      Splice(entries, id, i);
      b := i < |entries|;
    }

    method Get(id: Id) returns (r: Option<int>)
      requires Ok()
      modifies this
      ensures Ok() && r == Lookup(old(entries), id) && entries == Touch(old(entries), id)
    {
      var i := Find(id);
      Splice(entries, id, i);
      if i == |entries| { return None; }
      r := Some(entries[i].expires);
      entries := [entries[i]] + (entries[..i] + entries[i + 1..]);
    }

    method Put(id: Id, expires: int)
      requires Ok()
      modifies this
      ensures Ok() && entries == Insert(old(entries), cap, id, expires)
    {
      var i := Find(id);
      Splice(entries, id, i);
      if i < |entries| {
        entries := [Entry(id, expires)] + (entries[..i] + entries[i + 1..]);
      } else {
        if |entries| == cap {
          entries := entries[..cap - 1];
        }
        entries := [Entry(id, expires)] + entries;
      }
    }

    method Clear()
      requires Ok()
      modifies this
      ensures Ok() && entries == []
    {
      entries := [];
    }
  }

  // Cutting the first occurrence out.
  lemma {:induction false} Splice(c: seq<Entry>, id: Id, i: nat)
    requires i <= |c| && (i < |c| ==> c[i].id == id)
    requires forall j | 0 <= j < i :: c[j].id != id
    ensures i < |c| ==> Without(c, id) == c[..i] + c[i + 1..] && Lookup(c, id) == Some(c[i].expires)
    ensures i == |c| ==> Without(c, id) == c && Lookup(c, id) == None
  {
    if i > 0 {
      Splice(c[1..], id, i - 1);
      if i < |c| {
        assert c[..i] + c[i + 1..] == [c[0]] + (c[1..][..i - 1] + c[1..][i..]);
      }
    }
  }
}
