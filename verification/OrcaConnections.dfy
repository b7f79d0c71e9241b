/** The load-test preprocessor, replay: consuming all records, in order, into connections. */
module OrcaConnections {
  import opened Prelude
  import opened AscendingSeq
  import opened OrcaRecords

  const INT_LT := (x: int, y: int) => x < y

  // ------------------------------------------------------------------ replay and group

  // The whole log can be replayed from these entries.
  ghost predicate Replays(pre: set<nat>, recs: seq<Record>, n: nat)
    requires n <= |recs|
  {
    forall i | 0 <= i < n :: AcceptedAt(pre, recs, i)
  }

  ghost predicate AcceptedAt(pre: set<nat>, recs: seq<Record>, i: int)
    requires 0 <= i < |recs|
  {
    Accepts(LiveAt(pre, recs, i), recs[i])
  }

  // The operations of connection c among the first n.
  function OpsOf(recs: seq<Record>, ops: seq<Op>, n: nat, c: int): seq<Op>
    requires n <= |recs| && n <= |ops|
  {
    if n == 0 then []
    else if recs[n - 1].conn == c then OpsOf(recs, ops, n - 1, c) + [ops[n - 1]]
    else OpsOf(recs, ops, n - 1, c)
  }

  ghost predicate Seen(recs: seq<Record>, n: nat, c: int)
    requires n <= |recs|
  {
    exists i :: 0 <= i < n && recs[i].conn == c
  }

  function Ids(cs: seq<Conn>): (ids: seq<int>)
    ensures |ids| == |cs| && forall i | 0 <= i < |cs| :: ids[i] == cs[i].id
  {
    if cs == [] then [] else Ids(cs[..|cs| - 1]) + [cs[|cs| - 1].id]
  }

  ghost predicate Complete(c: Conn, recs: seq<Record>, ops: seq<Op>, n: nat)
    requires n <= |recs| && n <= |ops|
  {
    Seen(recs, n, c.id) && c.ops == OpsOf(recs, ops, n, c.id)
  }

  // The ordered map of connections: ascending ids, one entry for each connection seen,
  // holding its operations in order.
  ghost predicate Grouped(cs: seq<Conn>, recs: seq<Record>, ops: seq<Op>, n: nat)
    requires n <= |recs| && n <= |ops|
  {
    && Ascending(Ids(cs), INT_LT)
    && (forall i | 0 <= i < |cs| :: Complete(cs[i], recs, ops, n))
    && (forall c | Seen(recs, n, c) :: c in Ids(cs))
  }

  // Operation i stands for record i.
  ghost predicate DescribedAt(recs: seq<Record>, ops: seq<Op>, pre: set<nat>, entities: map<nat, Entity>, i: int)
    requires 0 <= i < |recs| && i < |ops|
  {
    Describes(recs[i], ops[i], LiveAt(pre, recs, i), entities)
  }

  ghost predicate Described(recs: seq<Record>, ops: seq<Op>, pre: set<nat>, entities: map<nat, Entity>) {
    |ops| <= |recs| && forall i | 0 <= i < |ops| :: DescribedAt(recs, ops, pre, entities, i)
  }

  lemma {:induction false} DescribedSnoc(
    recs: seq<Record>, ops: seq<Op>, pre: set<nat>, entities: map<nat, Entity>, op: Op)
    requires Described(recs, ops, pre, entities) && |ops| < |recs|
    requires Describes(recs[|ops|], op, LiveAt(pre, recs, |ops|), entities)
    ensures Described(recs, ops + [op], pre, entities)
  {
    forall i | 0 <= i < |ops| + 1 ensures DescribedAt(recs, ops + [op], pre, entities, i) {
      assert i < |ops| ==> DescribedAt(recs, ops, pre, entities, i);
    }
  }

  lemma {:induction false} OpsOfFrame(recs: seq<Record>, ops: seq<Op>, op: Op, n: nat, c: int)
    requires n <= |recs| && n <= |ops|
    ensures OpsOf(recs, ops + [op], n, c) == OpsOf(recs, ops, n, c)
  {
    if n > 0 {
      OpsOfFrame(recs, ops, op, n - 1, c);
    }
  }

  // One more operation on its connection, which is opened if need be.
  function PushOp(cs: seq<Conn>, c: int, op: Op, found: bool, at: nat): seq<Conn>
    requires at <= |cs| && (found ==> at < |cs|)
  {
    if found then cs[at := Conn(c, cs[at].ops + [op])] else InsertAt(cs, at, Conn(c, [op]))
  }

  lemma {:induction false} SeenNext(recs: seq<Record>, n: nat, d: int)
    requires n < |recs|
    ensures Seen(recs, n + 1, d) <==> Seen(recs, n, d) || recs[n].conn == d
  {
  }

  lemma {:induction false} CompleteNext(c: Conn, recs: seq<Record>, ops: seq<Op>, op: Op)
    requires |ops| < |recs| && Complete(c, recs, ops, |ops|)
    ensures Complete(if recs[|ops|].conn == c.id then Conn(c.id, c.ops + [op]) else c, recs, ops + [op], |ops| + 1)
  {
    OpsOfFrame(recs, ops, op, |ops|, c.id);
    SeenNext(recs, |ops|, c.id);
  }

  lemma {:induction false} PushFound(cs: seq<Conn>, recs: seq<Record>, ops: seq<Op>, op: Op, at: nat)
    requires |ops| < |recs| && Grouped(cs, recs, ops, |ops|)
    requires Place(Ids(cs), INT_LT, recs[|ops|].conn, true, at)
    ensures Grouped(PushOp(cs, recs[|ops|].conn, op, true, at), recs, ops + [op], |ops| + 1)
  {
    var n := |ops|;
    var c := recs[n].conn;
    var cs' := PushOp(cs, c, op, true, at);
    assert Ids(cs') == Ids(cs);
    forall i | 0 <= i < |cs'| ensures Complete(cs'[i], recs, ops + [op], n + 1) {
      assert i != at ==> Ids(cs)[i] != Ids(cs)[at];
      CompleteNext(cs[i], recs, ops, op);
    }
    forall d | Seen(recs, n + 1, d) ensures d in Ids(cs') {
      SeenNext(recs, n, d);
    }
  }

  lemma {:induction false} IdsInsert(cs: seq<Conn>, at: nat, c: Conn)
    requires at <= |cs|
    ensures Ids(InsertAt(cs, at, c)) == InsertAt(Ids(cs), at, c.id)
  {
  }

  // Every entry of the enlarged map is the new one or one that was there.
  lemma {:induction false} InsertedEntries(cs: seq<Conn>, at: nat, c: Conn, i: nat) returns (j: nat)
    requires at <= |cs| && i <= |cs| && i != at
    ensures j < |cs| && InsertAt(cs, at, c)[i] == cs[j]
  {
    j := if i < at then i else i - 1;
  }

  lemma {:induction false} NewComplete(cs: seq<Conn>, recs: seq<Record>, ops: seq<Op>, op: Op)
    requires |ops| < |recs| && Grouped(cs, recs, ops, |ops|) && recs[|ops|].conn !in Ids(cs)
    ensures Complete(Conn(recs[|ops|].conn, [op]), recs, ops + [op], |ops| + 1)
  {
    var n := |ops|;
    var c := recs[n].conn;
    NothingUnseen(recs, ops, n, c);
    OpsOfFrame(recs, ops, op, n, c);
    SeenNext(recs, n, c);
  }

  lemma {:induction false} PushNew(cs: seq<Conn>, recs: seq<Record>, ops: seq<Op>, op: Op, at: nat)
    requires |ops| < |recs| && Grouped(cs, recs, ops, |ops|)
    requires Place(Ids(cs), INT_LT, recs[|ops|].conn, false, at)
    ensures Grouped(PushOp(cs, recs[|ops|].conn, op, false, at), recs, ops + [op], |ops| + 1)
  {
    var n, new_ := |ops|, Conn(recs[|ops|].conn, [op]);
    var cs' := InsertAt(cs, at, new_);
    IdsInsert(cs, at, new_);
    InsertKeepsOrder(Ids(cs), INT_LT, new_.id, at);
    NewComplete(cs, recs, ops, op);
    forall i | 0 <= i < |cs'| ensures Complete(cs'[i], recs, ops + [op], n + 1) {
      if i == at {
        assert cs'[i] == new_;
      } else {
        var j := InsertedEntries(cs, at, new_, i);
        assert Ids(cs)[j] in Ids(cs);
        CompleteNext(cs[j], recs, ops, op);
      }
    }
    NewCovers(cs, recs, ops, new_, at);
  }

  lemma {:induction false} NewCovers(cs: seq<Conn>, recs: seq<Record>, ops: seq<Op>, c: Conn, at: nat)
    requires |ops| < |recs| && Grouped(cs, recs, ops, |ops|) && at <= |cs| && c.id == recs[|ops|].conn
    ensures forall d | Seen(recs, |ops| + 1, d) :: d in Ids(InsertAt(cs, at, c))
  {
    IdsInsert(cs, at, c);
    forall d | Seen(recs, |ops| + 1, d) ensures d in Ids(InsertAt(cs, at, c)) {
      SeenNext(recs, |ops|, d);
    }
  }

  lemma {:induction false} NothingUnseen(recs: seq<Record>, ops: seq<Op>, n: nat, c: int)
    requires n <= |recs| && n <= |ops| && !Seen(recs, n, c)
    ensures OpsOf(recs, ops, n, c) == []
  {
    if n > 0 {
      assert !Seen(recs, n - 1, c) && recs[n - 1].conn != c;
      NothingUnseen(recs, ops, n - 1, c);
    }
  }

  // Consume the records into connection structures: succeeds exactly when every Add is
  // of absent ids, every Delete of present ones and every Bind names an id, at its place
  // in the order.
  method Replay(recs: seq<Record>, precreate: seq<nat>, entities: map<nat, Entity>)
    returns (r: Result<seq<Conn>>, ghost ops: seq<Op>)
    requires Ascending(precreate, NAT_LT)
    requires forall i | 0 <= i < |recs| :: Normal(recs[i]) && forall id | id in recs[i].ids :: id in entities
    ensures r.Ok? <==> Replays(Elems(precreate), recs, |recs|)
    ensures r.Ok? ==> |ops| == |recs| && Described(recs, ops, Elems(precreate), entities)
    ensures r.Ok? ==> Grouped(r.value, recs, ops, |recs|)
  {
    ghost var pre := Elems(precreate);
    var tracker := new Tracker(precreate);
    var cs: seq<Conn> := [];
    ops := [];
    for i := 0 to |recs|
      invariant tracker.Sorted() && tracker.Live() == LiveAt(pre, recs, i) && Replays(pre, recs, i)
      invariant |ops| == i && Grouped(cs, recs, ops, i)
      invariant Described(recs, ops, pre, entities)
    {
      var op := tracker.IntoOp(recs[i], entities);
      assert op.Ok? <==> AcceptedAt(pre, recs, i);
      if op == Err {
        return Err, ops;
      }
      DescribedSnoc(recs, ops, pre, entities, op.value);
      cs := Push(cs, recs, op.value, i, ops);
      ops := ops + [op.value];
    }
    r := Ok(cs);
  }

  // connections.get_mut, or insert
  method Push(cs: seq<Conn>, recs: seq<Record>, op: Op, i: nat, ghost ops: seq<Op>) returns (r: seq<Conn>)
    requires i == |ops| < |recs| && Grouped(cs, recs, ops, i)
    ensures Grouped(r, recs, ops + [op], i + 1)
  {
    var found, at := BinarySearch(Ids(cs), INT_LT, recs[i].conn);
    if found {
      PushFound(cs, recs, ops, op, at);
    } else {
      PushNew(cs, recs, ops, op, at);
    }
    r := PushOp(cs, recs[i].conn, op, found, at);
  }

  function Flatten(cs: seq<Conn>): seq<Op> {
    if cs == [] then [] else Flatten(cs[..|cs| - 1]) + cs[|cs| - 1].ops
  }

  // Appending to the last connection, or opening a new one.
  function Build(recs: seq<Record>, ops: seq<Op>, n: nat): seq<Conn>
    requires n <= |recs| && n <= |ops|
  {
    if n == 0 then []
    else
      var cs := Build(recs, ops, n - 1);
      var last := |cs| - 1;
      if cs != [] && cs[last].id == recs[n - 1].conn
      then cs[last := Conn(cs[last].id, cs[last].ops + [ops[n - 1]])]
      else cs + [Conn(recs[n - 1].conn, [ops[n - 1]])]
  }

  ghost predicate BuiltOk(cs: seq<Conn>, recs: seq<Record>, ops: seq<Op>, n: nat)
    requires n <= |recs| && n <= |ops|
  {
    && Ascending(Ids(cs), INT_LT)
    && (n > 0 ==> cs != [] && cs[|cs| - 1].id == recs[n - 1].conn)
    && (forall c :: c in Ids(cs) <==> Seen(recs, n, c))
    && (forall i | 0 <= i < |cs| :: cs[i].ops == OpsOf(recs, ops, n, cs[i].id))
    && Flatten(cs) == ops[..n]
  }

  lemma {:induction false} BuildIsOk(recs: seq<Record>, ops: seq<Op>, n: nat)
    requires n <= |recs| && n <= |ops| && Ordered(recs)
    ensures BuiltOk(Build(recs, ops, n), recs, ops, n)
  {
    if n > 0 {
      var cs := Build(recs, ops, n - 1);
      BuildIsOk(recs, ops, n - 1);
      if cs != [] && cs[|cs| - 1].id == recs[n - 1].conn {
        ExtendLast(cs, recs, ops, n);
      } else {
        OpenNew(cs, recs, ops, n);
      }
    }
  }

  lemma {:induction false} ExtendLast(cs: seq<Conn>, recs: seq<Record>, ops: seq<Op>, n: nat)
    requires 0 < n <= |recs| && n <= |ops| && BuiltOk(cs, recs, ops, n - 1)
    requires cs != [] && cs[|cs| - 1].id == recs[n - 1].conn
    ensures BuiltOk(cs[|cs| - 1 := Conn(recs[n - 1].conn, cs[|cs| - 1].ops + [ops[n - 1]])], recs, ops, n)
  {
    var c, last, op := recs[n - 1].conn, |cs| - 1, ops[n - 1];
    var cs' := cs[last := Conn(c, cs[last].ops + [op])];
    assert Ids(cs') == Ids(cs) && cs'[..last] == cs[..last];
    assert ops[..n] == ops[..n - 1] + [op];
    forall d ensures d in Ids(cs') <==> Seen(recs, n, d) {
      SeenNext(recs, n - 1, d);
    }
    forall i | 0 <= i < |cs'| ensures cs'[i].ops == OpsOf(recs, ops, n, cs'[i].id) {
      assert i < last ==> INT_LT(Ids(cs)[i], Ids(cs)[last]);
    }
  }

  lemma {:induction false} BeforeNew(cs: seq<Conn>, recs: seq<Record>, ops: seq<Op>, n: nat)
    requires 0 < n <= |recs| && n <= |ops| && Ordered(recs) && BuiltOk(cs, recs, ops, n - 1)
    requires cs == [] || cs[|cs| - 1].id != recs[n - 1].conn
    ensures forall i | 0 <= i < |cs| :: Ids(cs)[i] < recs[n - 1].conn
  {
    if cs != [] {
      var last := |cs| - 1;
      assert Ids(cs)[last] in Ids(cs) && Seen(recs, n - 1, Ids(cs)[last]);
      assert AtMost(recs[n - 2], recs[n - 1]);
      assert forall i | 0 <= i < last :: INT_LT(Ids(cs)[i], Ids(cs)[last]);
    }
  }

  lemma {:induction false} OpenNew(cs: seq<Conn>, recs: seq<Record>, ops: seq<Op>, n: nat)
    requires 0 < n <= |recs| && n <= |ops| && Ordered(recs) && BuiltOk(cs, recs, ops, n - 1)
    requires cs == [] || cs[|cs| - 1].id != recs[n - 1].conn
    ensures BuiltOk(cs + [Conn(recs[n - 1].conn, [ops[n - 1]])], recs, ops, n)
  {
    var c, op := recs[n - 1].conn, ops[n - 1];
    var cs' := cs + [Conn(c, [op])];
    assert cs'[..|cs|] == cs;
    assert Ids(cs') == Ids(cs) + [c];
    assert ops[..n] == ops[..n - 1] + [op];
    BeforeNew(cs, recs, ops, n);
    assert !Seen(recs, n - 1, c);
    NothingUnseen(recs, ops, n - 1, c);
    forall d ensures d in Ids(cs') <==> Seen(recs, n, d) {
      SeenNext(recs, n - 1, d);
    }
  }

  // Grouping conserves order and content: the operations of the connections, one
  // connection after another, are the operations of the sorted records, none lost and
  // none repeated.
  lemma {:induction false} GroupingConserves(cs: seq<Conn>, recs: seq<Record>, ops: seq<Op>)
    requires Ordered(recs) && |ops| == |recs| && Grouped(cs, recs, ops, |recs|)
    ensures Flatten(cs) == ops
  {
    var n := |recs|;
    var built := Build(recs, ops, n);
    BuildIsOk(recs, ops, n);
    forall c ensures c in Ids(cs) <==> c in Ids(built) {
      if c in Ids(cs) {
        var i :| 0 <= i < |cs| && Ids(cs)[i] == c;
        assert Complete(cs[i], recs, ops, n);
      }
    }
    AscendingUnique(Ids(cs), Ids(built), INT_LT);
    forall i | 0 <= i < |cs| ensures cs[i] == built[i] {
      assert Ids(cs)[i] == Ids(built)[i] && Complete(cs[i], recs, ops, n);
    }
    assert cs == built && ops[..n] == ops;
  }
}
