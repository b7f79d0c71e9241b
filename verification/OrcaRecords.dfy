/** The load-test preprocessor, records: ordering the log and turning each record into an
    operation while tracking which entries exist. A panic of the source is `Err`. */
module OrcaRecords {
  import opened Prelude
  import opened AscendingSeq

  datatype RawOpType = Precreate | Add | Search | Mod | Delete | Bind

  datatype Record = Record(conn: int, rtime: nat, etime: nat, ids: seq<nat>, kind: RawOpType)

  datatype Entity = Account | Group

  datatype Change = AccountChange | GroupChange(members: set<nat>)

  datatype OpType =
    | OpBind(id: nat)
    | OpAdd(ids: seq<nat>)
    | OpMod(changes: seq<(nat, Change)>)
    | OpDelete(ids: seq<nat>)
    | OpSearch(ids: seq<nat>)

  datatype Op = Op(etime: nat, rtime: nat, op: OpType)

  datatype Conn = Conn(id: int, ops: seq<Op>)

  const NAT_LT := (x: nat, y: nat) => x < y

  function Elems(s: seq<nat>): set<nat> { set x | x in s }

  // Its ids go up, none twice.
  ghost predicate Normal(rec: Record) {
    Ascending(rec.ids, NAT_LT) && forall i, j | 0 <= i < j < |rec.ids| :: rec.ids[i] < rec.ids[j]
  }

  // What conversion from a raw record does to the ids it lists.
  method Normalise(rec: Record) returns (r: Record)
    ensures Normal(r) && Elems(r.ids) == Elems(rec.ids) && r == rec.(ids := r.ids)
  {
    var ids := SortDedup(rec.ids, NAT_LT);
    r := rec.(ids := ids);
  }

  ghost predicate NormalForm(raw: Record, rec: Record) {
    Normal(rec) && Elems(rec.ids) == Elems(raw.ids) && rec == raw.(ids := rec.ids)
  }

  // The log with every record in normal form.
  ghost predicate NormalForms(raw: seq<Record>, data: seq<Record>) {
    |data| == |raw| && forall i | 0 <= i < |raw| :: NormalForm(raw[i], data[i])
  }

  method NormaliseAll(raw: seq<Record>) returns (data: seq<Record>)
    ensures NormalForms(raw, data)
  {
    data := [];
    for i := 0 to |raw|
      invariant |data| == i && forall j | 0 <= j < i :: NormalForm(raw[j], data[j])
    {
      var rec := Normalise(raw[i]);
      data := data + [rec];
    }
  }

  // There is only one.
  lemma {:induction false} NormalFormsUnique(raw: seq<Record>, a: seq<Record>, b: seq<Record>)
    requires NormalForms(raw, a) && NormalForms(raw, b)
    ensures a == b
  {
    forall i | 0 <= i < |raw| ensures a[i] == b[i] {
      assert NormalForm(raw[i], a[i]) && NormalForm(raw[i], b[i]);
      assert forall id :: id in a[i].ids <==> id in Elems(a[i].ids);
      assert forall id :: id in b[i].ids <==> id in Elems(b[i].ids);
      AscendingUnique(a[i].ids, b[i].ids, NAT_LT);
    }
  }

  // --------------------------------------------------------------- which entries exist

  // The record can be replayed when these entries exist.
  predicate Accepts(live: set<nat>, rec: Record) {
    match rec.kind
    case Add => forall id | id in rec.ids :: id !in live
    case Delete => forall id | id in rec.ids :: id in live
    case Bind => rec.ids != []
    case Precreate => false
    case _ => true
  }

  function Advance(live: set<nat>, rec: Record): set<nat> {
    match rec.kind
    case Add => live + Elems(rec.ids)
    case Delete => live - Elems(rec.ids)
    case _ => live
  }

  // The entries that exist before record n.
  function LiveAt(pre: set<nat>, recs: seq<Record>, n: nat): set<nat>
    requires n <= |recs|
  {
    if n == 0 then pre else Advance(LiveAt(pre, recs, n - 1), recs[n - 1])
  }

  // Record i adds or deletes id.
  ghost predicate Changes(recs: seq<Record>, i: int, id: nat) {
    0 <= i < |recs| && (recs[i].kind == Add || recs[i].kind == Delete) && id in recs[i].ids
  }

  ghost predicate LastChange(recs: seq<Record>, n: nat, i: int, id: nat)
    requires n <= |recs|
  {
    i < n && Changes(recs, i, id) && forall j | i < j < n :: !Changes(recs, j, id)
  }

  // An entry exists exactly when the last record that adds or deletes it adds it, or
  // there is none and it was created beforehand.
  lemma {:induction false} ExistsIffLastAdded(pre: set<nat>, recs: seq<Record>, n: nat, id: nat)
    requires n <= |recs|
    ensures id in LiveAt(pre, recs, n) <==>
            (exists i :: LastChange(recs, n, i, id) && recs[i].kind == Add) ||
            (id in pre && forall i | 0 <= i < n :: !Changes(recs, i, id))
  {
    if n > 0 {
      var m := n - 1;
      ExistsIffLastAdded(pre, recs, m, id);
      if Changes(recs, m, id) {
        assert LastChange(recs, n, m, id);
        assert forall i :: LastChange(recs, n, i, id) ==> i == m;
      } else {
        assert forall i :: LastChange(recs, n, i, id) <==> LastChange(recs, m, i, id);
      }
    }
  }

  // ------------------------------------------------------------------ one operation

  // The op is the record's, with the kinds of change its entries call for and, for
  // groups, at most a third of the entries existing at the time.
  ghost predicate Describes(rec: Record, op: Op, live: set<nat>, entities: map<nat, Entity>) {
    && op.etime == rec.etime && op.rtime == rec.rtime
    && match rec.kind
       case Add => op.op == OpAdd(rec.ids)
       case Search => op.op == OpSearch(rec.ids)
       case Delete => op.op == OpDelete(rec.ids)
       case Bind => rec.ids != [] && op.op == OpBind(rec.ids[0])
       case Mod => op.op.OpMod? && ModOk(rec.ids, op.op.changes, live, entities)
       case Precreate => false
  }

  ghost predicate ModOk(ids: seq<nat>, changes: seq<(nat, Change)>, live: set<nat>, entities: map<nat, Entity>) {
    && |changes| == |ids|
    && forall i | 0 <= i < |ids| :: ChangeOk(ids[i], changes[i], live, entities)
  }

  ghost predicate ChangeOk(id: nat, change: (nat, Change), live: set<nat>, entities: map<nat, Entity>) {
    && id in entities && change.0 == id
    && (entities[id] == Account ==> change.1 == AccountChange)
    && (entities[id] == Group ==> change.1.GroupChange? && change.1.members <= live && 3 * |change.1.members| <= |live|)
  }

  lemma {:induction false} DistinctCount(s: seq<nat>)
    requires Ascending(s, NAT_LT)
    ensures |Elems(s)| == |s|
  {
    if s != [] {
      var front := s[..|s| - 1];
      DistinctCount(front);
      assert Elems(s) == Elems(front) + {s[|s| - 1]};
      assert s[|s| - 1] !in front;
    }
  }

  // A random choice of fewer than max entries.
  method Choose(from: seq<nat>, max: nat) returns (chosen: set<nat>)
    requires max > 0
    ensures chosen <= Elems(from) && |chosen| < max
  {
    chosen := {};
    for i := 0 to |from|
      invariant chosen <= Elems(from[..i]) && |chosen| < max
    {
      var take: bool := *;
      if take && |chosen| + 1 < max {
        chosen := chosen + {from[i]};
      }
      assert from[..i + 1] == from[..i] + [from[i]];
    }
    assert from[..|from|] == from;
  }

  class Tracker {
    var exists_: seq<nat>

    ghost predicate Sorted()
      reads this
    {
      Ascending(exists_, NAT_LT)
    }

    ghost function Live(): set<nat>
      reads this
    {
      Elems(exists_)
    }

    constructor (precreate: seq<nat>)
      requires Ascending(precreate, NAT_LT)
      ensures Sorted() && Live() == Elems(precreate)
    {
      exists_ := precreate;
    }

    // Stops at the first id that is already there.
    method AddAll(ids: seq<nat>) returns (ok: bool)
      requires Sorted() && Ascending(ids, NAT_LT)
      modifies this
      ensures Sorted()
      ensures ok <==> forall id | id in ids :: id !in old(Live())
      ensures ok ==> Live() == old(Live()) + Elems(ids)
    {
      for i := 0 to |ids|
        invariant Sorted() && Live() == old(Live()) + Elems(ids[..i])
        invariant forall j | 0 <= j < i :: ids[j] !in old(Live())
      {
        var found, at := BinarySearch(exists_, NAT_LT, ids[i]);
        assert ids[i] !in ids[..i];
        if found {
          assert ids[i] in Live();
          return false;
        }
        InsertKeepsOrder(exists_, NAT_LT, ids[i], at);
        exists_ := InsertAt(exists_, at, ids[i]);
        assert ids[..i + 1] == ids[..i] + [ids[i]];
      }
      assert ids[..|ids|] == ids;
      return true;
    }

    // Stops at the first id that is not there.
    method DeleteAll(ids: seq<nat>) returns (ok: bool)
      requires Sorted() && Ascending(ids, NAT_LT)
      modifies this
      ensures Sorted()
      ensures ok <==> forall id | id in ids :: id in old(Live())
      ensures ok ==> Live() == old(Live()) - Elems(ids)
    {
      for i := 0 to |ids|
        invariant Sorted() && Live() == old(Live()) - Elems(ids[..i])
        invariant forall j | 0 <= j < i :: ids[j] in old(Live())
      {
        var found, at := BinarySearch(exists_, NAT_LT, ids[i]);
        assert ids[i] !in ids[..i];
        if !found {
          assert ids[i] !in Live();
          return false;
        }
        assert exists_[at] == ids[i] && ids[i] in Live();
        RemoveKeepsOrder(exists_, NAT_LT, at);
        ghost var before := Live();
        exists_ := RemoveAt(exists_, at);
        assert Live() == before - {ids[i]};
        assert Elems(ids[..i + 1]) == Elems(ids[..i]) + {ids[i]} by {
          assert ids[..i + 1] == ids[..i] + [ids[i]];
        }
      }
      assert ids[..|ids|] == ids;
      return true;
    }

    // Kinds of change for a Mod; the members of a changed group are a random choice.
    method ModAll(ids: seq<nat>, entities: map<nat, Entity>) returns (changes: seq<(nat, Change)>)
      requires Sorted() && forall id | id in ids :: id in entities
      ensures ModOk(ids, changes, Live(), entities)
    {
      DistinctCount(exists_);
      var maxM := |exists_| / 3 + 1;
      changes := [];
      for i := 0 to |ids|
        invariant ModOk(ids[..i], changes, Live(), entities)
      {
        var change := AccountChange;
        if entities[ids[i]] == Group {
          var ngrp := Choose(exists_, maxM);
          change := GroupChange(ngrp);
        }
        changes := changes + [(ids[i], change)];
        assert forall j | 0 <= j < i :: ids[..i + 1][j] == ids[..i][j];
      }
      assert ids[..|ids|] == ids;
    }

    method IntoOp(rec: Record, entities: map<nat, Entity>) returns (r: Result<Op>)
      requires Sorted() && Normal(rec) && forall id | id in rec.ids :: id in entities
      modifies this
      ensures Sorted()
      ensures r.Ok? <==> Accepts(old(Live()), rec)
      ensures r.Ok? <==>
              && rec.kind != Precreate && (rec.kind == Bind ==> rec.ids != [])
              && (rec.kind == Add ==> forall id | id in rec.ids :: id !in old(exists_))
              && (rec.kind == Delete ==> forall id | id in rec.ids :: id in old(exists_))
      ensures r.Ok? ==> Live() == Advance(old(Live()), rec) && Describes(rec, r.value, old(Live()), entities)
    {
      match rec.kind {
        case Add =>
          var ok := AddAll(rec.ids);
          r := if ok then Ok(Op(rec.etime, rec.rtime, OpAdd(rec.ids))) else Err;
        case Search => r := Ok(Op(rec.etime, rec.rtime, OpSearch(rec.ids)));
        case Mod =>
          var changes := ModAll(rec.ids, entities);
          r := Ok(Op(rec.etime, rec.rtime, OpMod(changes)));
        case Delete =>
          var ok := DeleteAll(rec.ids);
          r := if ok then Ok(Op(rec.etime, rec.rtime, OpDelete(rec.ids))) else Err;
        case Bind => r := if rec.ids == [] then Err else Ok(Op(rec.etime, rec.rtime, OpBind(rec.ids[0])));
        case Precreate => r := Err;
      }
    }
  }

  // ---------------------------------------------------------------------- stable order

  // By connection, then by time.
  predicate AtMost(a: Record, b: Record) {
    a.conn < b.conn || (a.conn == b.conn && a.rtime <= b.rtime)
  }

  ghost predicate Ordered(s: seq<Record>) {
    forall i, j | 0 <= i < j < |s| :: AtMost(s[i], s[j])
  }

  // Behind everything that is not later.
  function InsertRecord(s: seq<Record>, rec: Record): seq<Record> {
    if s == [] || AtMost(s[|s| - 1], rec) then s + [rec]
    else InsertRecord(s[..|s| - 1], rec) + [s[|s| - 1]]
  }

  function SortRecords(s: seq<Record>): seq<Record> {
    if s == [] then [] else InsertRecord(SortRecords(s[..|s| - 1]), s[|s| - 1])
  }

  // The records with a given sort key, in order.
  function WithKey(s: seq<Record>, conn: int, rtime: nat): seq<Record> {
    if s == [] then []
    else if s[|s| - 1].conn == conn && s[|s| - 1].rtime == rtime then
      WithKey(s[..|s| - 1], conn, rtime) + [s[|s| - 1]]
    else WithKey(s[..|s| - 1], conn, rtime)
  }

  lemma {:induction false} InsertRecordOrders(s: seq<Record>, rec: Record)
    requires Ordered(s)
    ensures Ordered(InsertRecord(s, rec))
    ensures forall x :: x in InsertRecord(s, rec) <==> x in s || x == rec
  {
    if s != [] && !AtMost(s[|s| - 1], rec) {
      var front, last := s[..|s| - 1], s[|s| - 1];
      InsertRecordOrders(front, rec);
      assert s == front + [last];
      var t := InsertRecord(front, rec);
      forall x | x in t ensures AtMost(x, last) {
      }
    }
  }

  lemma {:induction false} InsertRecordKeeps(s: seq<Record>, rec: Record)
    ensures multiset(InsertRecord(s, rec)) == multiset(s) + multiset{rec}
  {
    if s != [] && !AtMost(s[|s| - 1], rec) {
      InsertRecordKeeps(s[..|s| - 1], rec);
      assert s == s[..|s| - 1] + [s[|s| - 1]];
    }
  }

  lemma {:induction false} WithKeySnoc(s: seq<Record>, last: Record, conn: int, rtime: nat)
    ensures WithKey(s + [last], conn, rtime) ==
            if last.conn == conn && last.rtime == rtime then WithKey(s, conn, rtime) + [last]
            else WithKey(s, conn, rtime)
  {
    assert (s + [last])[..|s|] == s;
  }

  lemma {:induction false} InsertRecordStable(s: seq<Record>, rec: Record, conn: int, rtime: nat)
    ensures WithKey(InsertRecord(s, rec), conn, rtime) == WithKey(s + [rec], conn, rtime)
  {
    if s != [] && !AtMost(s[|s| - 1], rec) {
      var front, last := s[..|s| - 1], s[|s| - 1];
      InsertRecordStable(front, rec, conn, rtime);
      WithKeySnoc(InsertRecord(front, rec), last, conn, rtime);
      WithKeySnoc(front, rec, conn, rtime);
      WithKeySnoc(s, rec, conn, rtime);
    }
  }

  lemma {:induction false} SortOrders(s: seq<Record>)
    ensures Ordered(SortRecords(s))
  {
    if s != [] {
      SortOrders(s[..|s| - 1]);
      InsertRecordOrders(SortRecords(s[..|s| - 1]), s[|s| - 1]);
    }
  }

  lemma {:induction false} SortKeeps(s: seq<Record>)
    ensures multiset(SortRecords(s)) == multiset(s)
  {
    if s != [] {
      var front, last := s[..|s| - 1], s[|s| - 1];
      SortKeeps(front);
      InsertRecordKeeps(SortRecords(front), last);
      assert s == front + [last];
    }
  }

  // By connection, and by time within one.
  predicate InOrder(a: Record, b: Record) {
    a.conn <= b.conn && (a.conn == b.conn ==> a.rtime <= b.rtime)
  }

  // Sorting puts the records in order, keeps each of them, and does not reorder records
  // with equal keys.
  lemma {:induction false} SortIsStable(s: seq<Record>, conn: int, rtime: nat)
    ensures Ordered(SortRecords(s)) && multiset(SortRecords(s)) == multiset(s)
    ensures forall i, j | 0 <= i < j < |SortRecords(s)| :: InOrder(SortRecords(s)[i], SortRecords(s)[j])
    ensures WithKey(SortRecords(s), conn, rtime) == WithKey(s, conn, rtime)
  {
    SortOrders(s);
    SortKeeps(s);
    if s != [] {
      var front, last := s[..|s| - 1], s[|s| - 1];
      SortIsStable(front, conn, rtime);
      InsertRecordStable(SortRecords(front), last, conn, rtime);
      WithKeySnoc(SortRecords(front), last, conn, rtime);
    }
  }

  // These properties determine the result.
  lemma {:induction false} StableSortUnique(a: seq<Record>, b: seq<Record>)
    requires Ordered(a) && Ordered(b) && |a| == |b|
    requires forall conn, rtime :: WithKey(a, conn, rtime) == WithKey(b, conn, rtime)
    ensures a == b
  {
    if a != [] {
      var x, y := a[|a| - 1], b[|b| - 1];
      assert WithKey(a, x.conn, x.rtime) == WithKey(b, x.conn, x.rtime);
      assert WithKey(a, y.conn, y.rtime) == WithKey(b, y.conn, y.rtime);
      KeyIn(b, x.conn, x.rtime);
      KeyIn(a, y.conn, y.rtime);
      assert x.conn == y.conn && x.rtime == y.rtime;
      assert x == WithKey(a, x.conn, x.rtime)[|WithKey(a, x.conn, x.rtime)| - 1] == y;
      var a', b' := a[..|a| - 1], b[..|b| - 1];
      forall conn, rtime ensures WithKey(a', conn, rtime) == WithKey(b', conn, rtime) {
        assert WithKey(a, conn, rtime) == WithKey(b, conn, rtime);
        if x.conn == conn && x.rtime == rtime {
          assert WithKey(a', conn, rtime) == WithKey(a, conn, rtime)[..|WithKey(a, conn, rtime)| - 1];
          assert WithKey(b', conn, rtime) == WithKey(b, conn, rtime)[..|WithKey(b, conn, rtime)| - 1];
        }
      }
      StableSortUnique(a', b');
      assert a == a' + [x] && b == b' + [y];
    }
  }

  lemma {:induction false} KeyIn(s: seq<Record>, conn: int, rtime: nat)
    requires WithKey(s, conn, rtime) != []
    ensures exists i :: 0 <= i < |s| && s[i].conn == conn && s[i].rtime == rtime
  {
    if !(s[|s| - 1].conn == conn && s[|s| - 1].rtime == rtime) {
      KeyIn(s[..|s| - 1], conn, rtime);
      var i :| 0 <= i < |s| - 1 && s[..|s| - 1][i].conn == conn && s[..|s| - 1][i].rtime == rtime;
      assert s[i].conn == conn;
    }
  }
}
