/** The load-test preprocessor as a whole, with the access pass: which entities each
    account must be able to write, from what was bound when they were written. */
module OrcaAccess {
  import opened Prelude
  import opened AscendingSeq
  import opened OrcaRecords
  import opened OrcaConnections

  datatype EntityType = AccountType(id: nat) | GroupType(id: nat)

  // Accounts before groups, then by id.
  const TYPE_LT := (a: EntityType, b: EntityType) =>
    (a.AccountType? && b.GroupType?) || (a.AccountType? == b.AccountType? && a.id < b.id)

  function TypeOf(entities: map<nat, Entity>, id: nat): EntityType {
    if id in entities && entities[id] == Account then AccountType(id) else GroupType(id)
  }

  function Types(entities: map<nat, Entity>, ids: seq<nat>): seq<EntityType> {
    if ids == [] then [] else Types(entities, ids[..|ids| - 1]) + [TypeOf(entities, ids[|ids| - 1])]
  }

  // ------------------------------------------------------- what one connection needs

  predicate IsWrite(op: OpType) { op.OpAdd? || op.OpDelete? || op.OpMod? }

  function ChangeIds(changes: seq<(nat, Change)>): (ids: seq<nat>)
    ensures |ids| == |changes| && forall i | 0 <= i < |ids| :: ids[i] == changes[i].0
  {
    if changes == [] then [] else ChangeIds(changes[..|changes| - 1]) + [changes[|changes| - 1].0]
  }

  function Targets(op: OpType): seq<nat>
    requires IsWrite(op)
  {
    if op.OpMod? then ChangeIds(op.changes) else op.ids
  }

  // Who is bound after these operations.
  function Bound(ops: seq<Op>): Option<nat> {
    if ops == [] then None
    else match ops[|ops| - 1].op
      case OpBind(id) => Some(id)
      case _ => Bound(ops[..|ops| - 1])
  }

  // Some write happens with nobody bound.
  predicate Bare(ops: seq<Op>) {
    ops != [] && (Bare(ops[..|ops| - 1]) || (IsWrite(ops[|ops| - 1].op) && Bound(ops[..|ops| - 1]) == None))
  }

  datatype Need = Need(who: nat, ids: seq<nat>)

  // Each write, under the bind in force.
  function Needs(ops: seq<Op>): seq<Need> {
    if ops == [] then []
    else
      var front, last := ops[..|ops| - 1], ops[|ops| - 1].op;
      if IsWrite(last) && Bound(front).Some? then Needs(front) + [Need(Bound(front).value, Targets(last))]
      else Needs(front)
  }

  function NeedsAll(cs: seq<Conn>): seq<Need> {
    if cs == [] then [] else NeedsAll(cs[..|cs| - 1]) + Needs(cs[|cs| - 1].ops)
  }

  // --------------------------------------------------- the same, read off the records

  predicate Writes(rec: Record) { rec.kind == Add || rec.kind == Delete || rec.kind == Mod }

  // The account bound on connection c before record n.
  function BoundRec(recs: seq<Record>, n: nat, c: int): Option<nat>
    requires n <= |recs|
  {
    if n == 0 then None
    else if recs[n - 1].conn == c && recs[n - 1].kind == Bind && recs[n - 1].ids != [] then Some(recs[n - 1].ids[0])
    else BoundRec(recs, n - 1, c)
  }

  ghost predicate BareAt(recs: seq<Record>, i: int, c: int)
    requires 0 <= i < |recs|
  {
    recs[i].conn == c && Writes(recs[i]) && BoundRec(recs, i, c) == None
  }

  // Record i is a write of these ids under that account.
  ghost predicate NeedAt(recs: seq<Record>, i: int, c: int, need: Need)
    requires 0 <= i < |recs|
  {
    recs[i].conn == c && Writes(recs[i]) && BoundRec(recs, i, c) == Some(need.who) && need.ids == recs[i].ids
  }

  ghost predicate NeededBy(recs: seq<Record>, n: nat, c: int, need: Need)
    requires n <= |recs|
  {
    exists i :: 0 <= i < n && NeedAt(recs, i, c, need)
  }

  ghost predicate BareBy(recs: seq<Record>, n: nat, c: int)
    requires n <= |recs|
  {
    exists i :: 0 <= i < n && BareAt(recs, i, c)
  }

  lemma {:induction false} DescribedOp(rec: Record, op: Op, live: set<nat>, entities: map<nat, Entity>)
    requires Describes(rec, op, live, entities)
    ensures IsWrite(op.op) <==> Writes(rec)
    ensures IsWrite(op.op) ==> Targets(op.op) == rec.ids
    ensures op.op.OpBind? <==> rec.kind == Bind
    ensures op.op.OpBind? ==> rec.ids != [] && op.op.id == rec.ids[0]
  {
    if rec.kind == Mod {
      forall i | 0 <= i < |rec.ids| ensures ChangeIds(op.op.changes)[i] == rec.ids[i] {
        assert ChangeOk(rec.ids[i], op.op.changes[i], live, entities);
      }
    }
  }

  lemma {:induction false} ConnectionNeeds(
    recs: seq<Record>, ops: seq<Op>, pre: set<nat>, entities: map<nat, Entity>, n: nat, c: int, need: Need)
    requires n <= |recs| == |ops| && Described(recs, ops, pre, entities)
    ensures var o := OpsOf(recs, ops, n, c);
            && Bound(o) == BoundRec(recs, n, c)
            && (Bare(o) <==> BareBy(recs, n, c))
            && (need in Needs(o) <==> NeededBy(recs, n, c, need))
  {
    if n > 0 {
      var m := n - 1;
      ConnectionNeeds(recs, ops, pre, entities, m, c, need);
      assert DescribedAt(recs, ops, pre, entities, m);
      DescribedOp(recs[m], ops[m], LiveAt(pre, recs, m), entities);
      assert NeededBy(recs, n, c, need) <==> NeededBy(recs, m, c, need) || NeedAt(recs, m, c, need);
      assert BareBy(recs, n, c) <==> BareBy(recs, m, c) || BareAt(recs, m, c);
      var o := OpsOf(recs, ops, m, c);
      assert (o + [ops[m]])[..|o|] == o;
    }
  }

  ghost predicate NeededIn(cs: seq<Conn>, need: Need) {
    exists i :: 0 <= i < |cs| && need in Needs(cs[i].ops)
  }

  lemma {:induction false} NeededInSnoc(cs: seq<Conn>, last: Conn, need: Need)
    ensures NeededIn(cs + [last], need) <==> NeededIn(cs, need) || need in Needs(last.ops)
  {
    var all := cs + [last];
    if i :| 0 <= i < |cs| && need in Needs(cs[i].ops) {
      assert all[i] == cs[i];
    }
    assert all[|cs|] == last;
  }

  lemma {:induction false} NeedsAllMeans(cs: seq<Conn>, need: Need)
    ensures need in NeedsAll(cs) <==> NeededIn(cs, need)
  {
    if cs != [] {
      var front, last := cs[..|cs| - 1], cs[|cs| - 1];
      NeedsAllMeans(front, need);
      NeededInSnoc(front, last, need);
      assert cs == front + [last];
    }
  }

  // ------------------------------------------------------------------- the access pass

  ghost predicate Named(needs: seq<Need>, who: nat) {
    exists i :: 0 <= i < |needs| && needs[i].who == who
  }

  // All types needed by one account, in the order met.
  function Gather(needs: seq<Need>, entities: map<nat, Entity>, who: nat): seq<EntityType> {
    if needs == [] then []
    else
      var front, last := Gather(needs[..|needs| - 1], entities, who), needs[|needs| - 1];
      if last.who == who then front + Types(entities, last.ids) else front
  }

  ghost predicate Gathered(access: map<nat, seq<EntityType>>, needs: seq<Need>, entities: map<nat, Entity>) {
    && (forall k :: k in access <==> Named(needs, k))
    && (forall k | k in access :: access[k] == Gather(needs, entities, k))
  }

  function AddNeed(access: map<nat, seq<EntityType>>, who: nat, types: seq<EntityType>): map<nat, seq<EntityType>> {
    access[who := (if who in access then access[who] else []) + types]
  }

  lemma {:induction false} Unnamed(needs: seq<Need>, entities: map<nat, Entity>, who: nat)
    requires !Named(needs, who)
    ensures Gather(needs, entities, who) == []
  {
    if needs != [] {
      var front := needs[..|needs| - 1];
      assert needs[|needs| - 1].who != who;
      assert forall i | 0 <= i < |front| :: front[i] == needs[i];
      Unnamed(front, entities, who);
    }
  }

  lemma {:induction false} AddNeedGathers(
    access: map<nat, seq<EntityType>>, needs: seq<Need>, entities: map<nat, Entity>, need: Need)
    requires Gathered(access, needs, entities)
    ensures Gathered(AddNeed(access, need.who, Types(entities, need.ids)), needs + [need], entities)
  {
    var access' := AddNeed(access, need.who, Types(entities, need.ids));
    var needs' := needs + [need];
    assert needs'[..|needs|] == needs;
    forall k ensures k in access' <==> Named(needs', k) {
      assert needs'[|needs|].who == need.who;
      if i :| 0 <= i < |needs| && needs[i].who == k {
        assert needs'[i].who == k;
      }
    }
    if need.who !in access {
      Unnamed(needs, entities, need.who);
    }
  }

  // One operation more.
  lemma {:induction false} OneMore(ops: seq<Op>, i: nat)
    requires i < |ops|
    ensures var front, all, op := ops[..i], ops[..i + 1], ops[i].op;
            && Bound(all) == (if op.OpBind? then Some(op.id) else Bound(front))
            && (Bare(all) <==> Bare(front) || (IsWrite(op) && Bound(front) == None))
            && Needs(all) == (if IsWrite(op) && Bound(front).Some?
                              then Needs(front) + [Need(Bound(front).value, Targets(op))] else Needs(front))
  {
    assert ops[..i + 1][..i] == ops[..i];
  }

  method AccessOfConn(
    ops: seq<Op>, entities: map<nat, Entity>, access0: map<nat, seq<EntityType>>, ghost needs0: seq<Need>)
    returns (ok: bool, access: map<nat, seq<EntityType>>)
    requires Gathered(access0, needs0, entities)
    ensures ok <==> !Bare(ops)
    ensures ok ==> Gathered(access, needs0 + Needs(ops), entities)
  {
    access := access0;
    var curbind: Option<nat> := None;
    assert needs0 + Needs(ops[..0]) == needs0;
    for i := 0 to |ops|
      invariant !Bare(ops[..i]) && curbind == Bound(ops[..i])
      invariant Gathered(access, needs0 + Needs(ops[..i]), entities)
    {
      OneMore(ops, i);
      match ops[i].op {
        case OpBind(id) => curbind := Some(id);
        case OpSearch(_) =>
        case _ =>
          if curbind == None {
            BareGrows(ops, i + 1, |ops|);
            assert ops[..|ops|] == ops;
            return false, access;
          }
          AddNeedGathers(access, needs0 + Needs(ops[..i]), entities, Need(curbind.value, Targets(ops[i].op)));
          access := AddNeed(access, curbind.value, Types(entities, Targets(ops[i].op)));
          assert needs0 + Needs(ops[..i + 1]) == needs0 + Needs(ops[..i]) + [Need(curbind.value, Targets(ops[i].op))];
      }
    }
    assert ops[..|ops|] == ops;
    ok := true;
  }

  lemma {:induction false} BareGrows(ops: seq<Op>, i: nat, n: nat)
    requires i <= n <= |ops| && Bare(ops[..i])
    ensures Bare(ops[..n])
    decreases n - i
  {
    if i < n {
      BareGrows(ops, i, n - 1);
      assert ops[..n][..n - 1] == ops[..n - 1];
    }
  }

  // Over all connections, then sorted and without repetition.
  method DeriveAccess(cs: seq<Conn>, entities: map<nat, Entity>) returns (r: Result<map<nat, seq<EntityType>>>)
    ensures r.Ok? <==> forall i | 0 <= i < |cs| :: !Bare(cs[i].ops)
    ensures r.Ok? ==> Derived(r.value, NeedsAll(cs), entities)
  {
    var access: map<nat, seq<EntityType>> := map[];
    for i := 0 to |cs|
      invariant forall j | 0 <= j < i :: !Bare(cs[j].ops)
      invariant Gathered(access, NeedsAll(cs[..i]), entities)
    {
      var ok;
      ok, access := AccessOfConn(cs[i].ops, entities, access, NeedsAll(cs[..i]));
      if !ok {
        return Err;
      }
      assert cs[..i + 1][..i] == cs[..i];
    }
    assert cs[..|cs|] == cs;
    access := SortAll(access, entities, NeedsAll(cs));
    r := Ok(access);
  }

  // The keys are the accounts named; each list is ascending and has exactly the types
  // needed.
  ghost predicate Derived(access: map<nat, seq<EntityType>>, needs: seq<Need>, entities: map<nat, Entity>) {
    && (forall k :: k in access <==> Named(needs, k))
    && (forall k | k in access :: Ascending(access[k], TYPE_LT))
    && (forall k, t | k in access :: t in access[k] <==> t in Gather(needs, entities, k))
  }

  method SortAll(access: map<nat, seq<EntityType>>, ghost entities: map<nat, Entity>, ghost needs: seq<Need>)
    returns (r: map<nat, seq<EntityType>>)
    requires Gathered(access, needs, entities)
    ensures Derived(r, needs, entities)
  {
    r := map[];
    var left := access.Keys;
    while left != {}
      invariant left <= access.Keys && r.Keys == access.Keys - left
      invariant forall k | k in r :: Ascending(r[k], TYPE_LT)
      invariant forall k, t | k in r :: t in r[k] <==> t in access[k]
    {
      var k: nat :| k in left;
      var v := SortDedup(access[k], TYPE_LT);
      r := r[k := v];
      left := left - {k};
    }
  }

  // ------------------------------------------------------- the same, in the log's terms

  lemma {:induction false} TypesAre(entities: map<nat, Entity>, ids: seq<nat>, t: EntityType)
    ensures t in Types(entities, ids) <==>
            t.id in ids && (t.AccountType? <==> t.id in entities && entities[t.id] == Account)
  {
    if ids != [] {
      TypesAre(entities, ids[..|ids| - 1], t);
      assert ids == ids[..|ids| - 1] + [ids[|ids| - 1]];
    }
  }

  ghost predicate BindsAt(recs: seq<Record>, j: int, c: int) {
    0 <= j < |recs| && recs[j].conn == c && recs[j].kind == Bind && recs[j].ids != []
  }

  // Record j is the latest bind on connection c before record n.
  ghost predicate LatestBind(recs: seq<Record>, j: int, n: int, c: int) {
    j < n && BindsAt(recs, j, c) && forall m | j < m < n :: !BindsAt(recs, m, c)
  }

  lemma {:induction false} BoundMeans(recs: seq<Record>, n: nat, c: int)
    requires n <= |recs|
    ensures BoundRec(recs, n, c) == None <==> forall j | 0 <= j < n :: !BindsAt(recs, j, c)
    ensures forall k :: BoundRec(recs, n, c) == Some(k) <==>
              exists j :: LatestBind(recs, j, n, c) && recs[j].ids[0] == k
  {
    if n > 0 {
      BoundMeans(recs, n - 1, c);
      if BindsAt(recs, n - 1, c) {
        assert LatestBind(recs, n - 1, n, c);
        assert forall j :: LatestBind(recs, j, n, c) ==> j == n - 1;
      } else {
        assert forall j :: LatestBind(recs, j, n, c) <==> LatestBind(recs, j, n - 1, c);
      }
    }
  }

  // Record i adds, deletes or changes entries while k is bound on its connection.
  ghost predicate WritesAs(recs: seq<Record>, i: int, k: nat) {
    && 0 <= i < |recs| && recs[i].kind in {Add, Delete, Mod}
    && exists j :: LatestBind(recs, j, i, recs[i].conn) && recs[j].ids[0] == k
  }

  // Some record binds id.
  ghost predicate EverBound(recs: seq<Record>, id: nat) {
    exists b :: 0 <= b < |recs| && recs[b].kind == Bind && id in recs[b].ids
  }

  // Accounts before groups, then by id.
  predicate Before(a: EntityType, b: EntityType) {
    match (a, b)
    case (AccountType(x), AccountType(y)) => x < y
    case (GroupType(x), GroupType(y)) => x < y
    case (AccountType(_), GroupType(_)) => true
    case (GroupType(_), AccountType(_)) => false
  }

  // Who has an access list, in which order it is, and that its entries are exactly the
  // entries that account wrote, as accounts if they were ever bound and as groups if not.
  ghost predicate AccessMeans(access: map<nat, seq<EntityType>>, recs: seq<Record>) {
    && (forall k :: k in access <==> exists i :: WritesAs(recs, i, k))
    && (forall k, i, j | k in access && 0 <= i < j < |access[k]| :: Before(access[k][i], access[k][j]))
    && (forall k, t | k in access :: t in access[k] <==>
          (t.AccountType? <==> EverBound(recs, t.id)) && exists i :: WritesAs(recs, i, k) && t.id in recs[i].ids)
  }

  lemma {:induction false} WritesAsIs(recs: seq<Record>, i: int, k: nat)
    ensures WritesAs(recs, i, k) <==>
            0 <= i < |recs| && Writes(recs[i]) && BoundRec(recs, i, recs[i].conn) == Some(k)
  {
    if 0 <= i < |recs| {
      BoundMeans(recs, i, recs[i].conn);
    }
  }

  lemma {:induction false} TouchesMeans(recs: seq<Record>, entities: map<nat, Entity>, k: nat, t: EntityType)
    requires forall i, id | 0 <= i < |recs| && id in recs[i].ids :: id in entities
    requires forall id | id in entities :: entities[id] == Account <==> EverBound(recs, id)
    ensures TouchesUnder(recs, entities, k, t) <==>
            (t.AccountType? <==> EverBound(recs, t.id)) && exists i :: WritesAs(recs, i, k) && t.id in recs[i].ids
  {
    if TouchesUnder(recs, entities, k, t) {
      var i :| 0 <= i < |recs| && Writes(recs[i]) && BoundRec(recs, i, recs[i].conn) == Some(k)
               && t in Types(entities, recs[i].ids);
      TypesAre(entities, recs[i].ids, t);
      WritesAsIs(recs, i, k);
    }
    if i :| WritesAs(recs, i, k) && t.id in recs[i].ids {
      TypesAre(entities, recs[i].ids, t);
      WritesAsIs(recs, i, k);
    }
  }

  lemma {:induction false} InForceMeans(recs: seq<Record>, k: nat)
    ensures InForce(recs, k) <==> exists i :: WritesAs(recs, i, k)
  {
    if InForce(recs, k) {
      var i :| 0 <= i < |recs| && Writes(recs[i]) && BoundRec(recs, i, recs[i].conn) == Some(k);
      WritesAsIs(recs, i, k);
    }
    if i :| WritesAs(recs, i, k) {
      WritesAsIs(recs, i, k);
    }
  }

  lemma {:induction false} ExactMeans(
    access: map<nat, seq<EntityType>>, recs: seq<Record>, entities: map<nat, Entity>, accounts: set<nat>)
    requires AccessExact(access, recs, entities, accounts)
    requires forall i, id | 0 <= i < |recs| && id in recs[i].ids :: id in entities
    requires forall id | id in entities :: entities[id] == Account <==> EverBound(recs, id)
    ensures AccessMeans(access, recs)
  {
    forall k ensures k in access <==> exists i :: WritesAs(recs, i, k) {
      InForceMeans(recs, k);
    }
    forall k, t | k in access
      ensures t in access[k] <==>
              (t.AccountType? <==> EverBound(recs, t.id)) && exists i :: WritesAs(recs, i, k) && t.id in recs[i].ids
    {
      TouchesMeans(recs, entities, k, t);
    }
    forall k, i, j | k in access && 0 <= i < j < |access[k]| ensures Before(access[k][i], access[k][j]) {
      assert TYPE_LT(access[k][i], access[k][j]);
    }
  }

  // An entry exists before record n: the last record to add or delete it added it, or none
  // did and it was created beforehand.
  ghost predicate There(pre: set<nat>, recs: seq<Record>, n: nat, id: nat)
    requires n <= |recs|
  {
    || (exists i :: LastChange(recs, n, i, id) && recs[i].kind == Add)
    || (id in pre && forall i | 0 <= i < n :: !Changes(recs, i, id))
  }

  // The log can be replayed: no entry is added that is there, none deleted that is not, and
  // no bind is without an id.
  ghost predicate Replayable(pre: set<nat>, recs: seq<Record>) {
    && (forall i, id | 0 <= i < |recs| && recs[i].kind == Add && id in recs[i].ids :: !There(pre, recs, i, id))
    && (forall i, id | 0 <= i < |recs| && recs[i].kind == Delete && id in recs[i].ids :: There(pre, recs, i, id))
    && (forall i | 0 <= i < |recs| :: recs[i].kind == Bind ==> recs[i].ids != [])
    && (forall i | 0 <= i < |recs| :: recs[i].kind != Precreate)
  }

  // Every write follows a bind on its own connection.
  ghost predicate AllWritesBound(recs: seq<Record>) {
    forall i | 0 <= i < |recs| && recs[i].kind in {Add, Delete, Mod} ::
      exists j :: j < i && BindsAt(recs, j, recs[i].conn)
  }

  lemma {:induction false} ReplaysMeans(pre: set<nat>, recs: seq<Record>)
    ensures Replays(pre, recs, |recs|) <==> Replayable(pre, recs)
  {
    forall i, id | 0 <= i < |recs| ensures There(pre, recs, i, id) <==> id in LiveAt(pre, recs, i) {
      ExistsIffLastAdded(pre, recs, i, id);
    }
    if Replays(pre, recs, |recs|) {
      forall i | 0 <= i < |recs| ensures Accepts(LiveAt(pre, recs, i), recs[i]) {
        assert AcceptedAt(pre, recs, i);
      }
    }
  }

  lemma {:induction false} BareMeans(recs: seq<Record>)
    ensures (forall i | 0 <= i < |recs| :: !BareAt(recs, i, recs[i].conn)) <==> AllWritesBound(recs)
  {
    forall i | 0 <= i < |recs|
      ensures BareAt(recs, i, recs[i].conn) <==>
              recs[i].kind in {Add, Delete, Mod} && !exists j :: j < i && BindsAt(recs, j, recs[i].conn)
    {
      BoundMeans(recs, i, recs[i].conn);
    }
  }

  // ---------------------------------------------------------------- the whole program

  datatype TestData = TestData(
    entities: map<nat, Entity>, access: map<nat, seq<EntityType>>, accounts: set<nat>,
    precreate: set<nat>, connections: seq<Conn>)

  // Everything but the pre-create records, in order.
  function Others(data: seq<Record>): seq<Record> {
    if data == [] then []
    else if data[|data| - 1].kind == Precreate then Others(data[..|data| - 1])
    else Others(data[..|data| - 1]) + [data[|data| - 1]]
  }

  function PreIds(data: seq<Record>): seq<nat> {
    if data == [] then []
    else if data[|data| - 1].kind == Precreate then PreIds(data[..|data| - 1]) + data[|data| - 1].ids
    else PreIds(data[..|data| - 1])
  }

  function AllIds(data: seq<Record>): set<nat> {
    set rec, id | rec in data && id in rec.ids :: id
  }

  function Binders(recs: seq<Record>): set<nat> {
    set rec, id | rec in recs && rec.kind == Bind && id in rec.ids :: id
  }

  function Entities(ids: set<nat>, accounts: set<nat>): map<nat, Entity> {
    map id | id in ids :: if id in accounts then Account else Group
  }

  lemma {:induction false} OthersAre(data: seq<Record>)
    ensures forall rec :: rec in Others(data) <==> rec in data && rec.kind != Precreate
  {
    if data != [] {
      OthersAre(data[..|data| - 1]);
      assert data == data[..|data| - 1] + [data[|data| - 1]];
    }
  }

  // Some write happened while k was bound on its connection.
  ghost predicate InForce(recs: seq<Record>, k: nat) {
    exists i :: 0 <= i < |recs| && Writes(recs[i]) && BoundRec(recs, i, recs[i].conn) == Some(k)
  }

  // ... and wrote an entity of type t.
  ghost predicate TouchesUnder(recs: seq<Record>, entities: map<nat, Entity>, k: nat, t: EntityType) {
    exists i :: 0 <= i < |recs| && Writes(recs[i]) && BoundRec(recs, i, recs[i].conn) == Some(k)
                && t in Types(entities, recs[i].ids)
  }

  lemma {:induction false} GatherMeans(needs: seq<Need>, entities: map<nat, Entity>, k: nat, t: EntityType)
    ensures t in Gather(needs, entities, k) <==>
            exists i :: 0 <= i < |needs| && needs[i].who == k && t in Types(entities, needs[i].ids)
  {
    if needs != [] {
      var front := needs[..|needs| - 1];
      GatherMeans(front, entities, k, t);
      assert forall i | 0 <= i < |front| :: front[i] == needs[i];
      if i :| 0 <= i < |needs| && needs[i].who == k && t in Types(entities, needs[i].ids) {
        assert i < |front| ==> front[i] == needs[i];
      }
    }
  }

  // Across all connections: the needs collected are those of the records.
  lemma {:induction false} AllNeeds(
    cs: seq<Conn>, recs: seq<Record>, ops: seq<Op>, pre: set<nat>, entities: map<nat, Entity>, need: Need)
    requires |recs| == |ops| && Described(recs, ops, pre, entities) && Grouped(cs, recs, ops, |recs|)
    ensures need in NeedsAll(cs) <==> exists i :: 0 <= i < |recs| && NeedAt(recs, i, recs[i].conn, need)
  {
    var n := |recs|;
    NeedsAllMeans(cs, need);
    if need in NeedsAll(cs) {
      var m :| 0 <= m < |cs| && need in Needs(cs[m].ops);
      assert Complete(cs[m], recs, ops, n);
      ConnectionNeeds(recs, ops, pre, entities, n, cs[m].id, need);
    }
    if i :| 0 <= i < n && NeedAt(recs, i, recs[i].conn, need) {
      var c := recs[i].conn;
      assert NeededBy(recs, n, c, need) && Seen(recs, n, c);
      ConnectionNeeds(recs, ops, pre, entities, n, c, need);
      var m :| 0 <= m < |cs| && Ids(cs)[m] == c;
      assert Complete(cs[m], recs, ops, n);
      assert need in Needs(cs[m].ops);
    }
  }

  lemma {:induction false} AllBound(
    cs: seq<Conn>, recs: seq<Record>, ops: seq<Op>, pre: set<nat>, entities: map<nat, Entity>)
    requires |recs| == |ops| && Described(recs, ops, pre, entities) && Grouped(cs, recs, ops, |recs|)
    ensures (forall m | 0 <= m < |cs| :: !Bare(cs[m].ops)) <==>
            (forall i | 0 <= i < |recs| :: !BareAt(recs, i, recs[i].conn))
  {
    var n := |recs|;
    forall m | 0 <= m < |cs| ensures Bare(cs[m].ops) <==> BareBy(recs, n, cs[m].id) {
      assert Complete(cs[m], recs, ops, n);
      ConnectionNeeds(recs, ops, pre, entities, n, cs[m].id, Need(0, []));
    }
    if m :| 0 <= m < |cs| && Bare(cs[m].ops) {
      var i :| 0 <= i < n && BareAt(recs, i, cs[m].id);
      assert BareAt(recs, i, recs[i].conn);
    }
    if i :| 0 <= i < n && BareAt(recs, i, recs[i].conn) {
      var c := recs[i].conn;
      assert Seen(recs, n, c) && BareBy(recs, n, c);
      var m :| 0 <= m < |cs| && Ids(cs)[m] == c;
      assert Bare(cs[m].ops);
    }
  }

  lemma {:induction false} BoundIsBinder(recs: seq<Record>, n: nat, c: int)
    requires n <= |recs| && BoundRec(recs, n, c).Some?
    ensures BoundRec(recs, n, c).value in Binders(recs)
  {
    if recs[n - 1].conn == c && recs[n - 1].kind == Bind && recs[n - 1].ids != [] {
      assert recs[n - 1] in recs && recs[n - 1].ids[0] in recs[n - 1].ids;
    } else {
      BoundIsBinder(recs, n - 1, c);
    }
  }

  // Keys, order and contents of the access lists, in terms of the records.
  ghost predicate AccessExact(
    access: map<nat, seq<EntityType>>, recs: seq<Record>, entities: map<nat, Entity>, accounts: set<nat>)
  {
    && (forall k :: k in access <==> InForce(recs, k))
    && (forall k | k in access :: k in accounts && Ascending(access[k], TYPE_LT))
    && (forall k, t | k in access :: t in access[k] <==> TouchesUnder(recs, entities, k, t))
  }

  lemma {:induction false} AccessIsExact(
    access: map<nat, seq<EntityType>>, cs: seq<Conn>, recs: seq<Record>, ops: seq<Op>,
    pre: set<nat>, entities: map<nat, Entity>)
    requires |recs| == |ops| && Described(recs, ops, pre, entities) && Grouped(cs, recs, ops, |recs|)
    requires Derived(access, NeedsAll(cs), entities)
    ensures AccessExact(access, recs, entities, Binders(recs))
  {
    var needs := NeedsAll(cs);
    forall k ensures k in access <==> InForce(recs, k) {
      if k in access {
        var i :| 0 <= i < |needs| && needs[i].who == k;
        AllNeeds(cs, recs, ops, pre, entities, needs[i]);
      }
      if i :| 0 <= i < |recs| && Writes(recs[i]) && BoundRec(recs, i, recs[i].conn) == Some(k) {
        var need := Need(k, recs[i].ids);
        assert NeedAt(recs, i, recs[i].conn, need);
        AllNeeds(cs, recs, ops, pre, entities, need);
      }
    }
    forall k | k in access ensures k in Binders(recs) {
      var i :| 0 <= i < |recs| && Writes(recs[i]) && BoundRec(recs, i, recs[i].conn) == Some(k);
      BoundIsBinder(recs, i, recs[i].conn);
    }
    forall k, t | k in access ensures t in access[k] <==> TouchesUnder(recs, entities, k, t) {
      GatherMeans(needs, entities, k, t);
      if t in access[k] {
        var i :| 0 <= i < |needs| && needs[i].who == k && t in Types(entities, needs[i].ids);
        AllNeeds(cs, recs, ops, pre, entities, needs[i]);
      }
      if i :| 0 <= i < |recs| && Writes(recs[i]) && BoundRec(recs, i, recs[i].conn) == Some(k)
              && t in Types(entities, recs[i].ids)
      {
        var need := Need(k, recs[i].ids);
        assert NeedAt(recs, i, recs[i].conn, need);
        AllNeeds(cs, recs, ops, pre, entities, need);
      }
    }
  }

  // What the output says about the sorted records: connections ascending, each with the
  // operations of exactly its own records in order, so that one after another they are the
  // operations of all records; access lists exact.
  ghost predicate Output(td: TestData, recs: seq<Record>, pre: set<nat>) {
    && |Flatten(td.connections)| == |recs|
    && Described(recs, Flatten(td.connections), pre, td.entities)
    && Grouped(td.connections, recs, Flatten(td.connections), |recs|)
    && AccessMeans(td.access, recs)
    && (forall k | k in td.access :: k in td.entities && td.entities[k] == Account)
  }

  // The ids of the pre-create records.
  function Created(data: seq<Record>): set<nat> {
    set rec, id | rec in data && rec.kind == Precreate && id in rec.ids :: id
  }

  lemma {:induction false} PreIdsAre(data: seq<Record>)
    ensures Elems(PreIds(data)) == Created(data)
  {
    if data != [] {
      var front, last := data[..|data| - 1], data[|data| - 1];
      PreIdsAre(front);
      assert data == front + [last];
      forall id ensures id in Created(data) <==> id in Created(front) || (last.kind == Precreate && id in last.ids) {
        if rec :| rec in data && rec.kind == Precreate && id in rec.ids {
          assert rec in front || rec == last;
        }
      }
    }
  }

  // The records left are the others, in the order of the log.
  lemma {:induction false} OthersInOrder(data: seq<Record>) returns (at: seq<nat>)
    ensures |at| == |Others(data)| && forall n | 0 <= n < |at| :: at[n] < |data| && Others(data)[n] == data[at[n]]
    ensures forall m, n | 0 <= m < n < |at| :: at[m] < at[n]
    ensures forall i | 0 <= i < |data| :: i in at <==> data[i].kind != Precreate
  {
    if data == [] {
      at := [];
    } else {
      var front := data[..|data| - 1];
      at := OthersInOrder(front);
      if data[|data| - 1].kind != Precreate {
        at := at + [|data| - 1];
      }
    }
  }

  // The program runs to completion exactly when the log can be replayed in order and every
  // write follows a bind on its own connection.
  ghost predicate Processed(r: Result<TestData>, data: seq<Record>) {
    var recs, pre := SortRecords(Others(data)), Created(data);
    && (r.Ok? <==> Replayable(pre, recs) && AllWritesBound(recs))
    && (r.Ok? ==> Output(r.value, recs, pre))
    && (r.Ok? ==> r.value.precreate == pre && r.value.entities.Keys == AllIds(data))
    && (r.Ok? ==> forall id :: id in r.value.accounts <==> EverBound(recs, id))
    && (r.Ok? ==> forall id | id in AllIds(data) ::
          r.value.entities[id] == if EverBound(recs, id) then Account else Group)
  }

  // From the log as read, whatever the order of the ids its records list: it has a normal
  // form, only one, and the result is as above for that.
  method Preprocess(raw: seq<Record>) returns (r: Result<TestData>)
    ensures exists data :: NormalForms(raw, data)
    ensures forall data | NormalForms(raw, data) :: Processed(r, data)
  {
    var data := NormaliseAll(raw);
    r := Process(data);
    forall other | NormalForms(raw, other) ensures Processed(r, other) {
      NormalFormsUnique(raw, data, other);
    }
  }

  // The same on records in normal form.
  method Process(data: seq<Record>) returns (r: Result<TestData>)
    requires forall rec | rec in data :: Normal(rec)
    ensures Processed(r, data)
  {
    var other := Others(data);
    var accounts := Binders(other);
    var precreate := SortDedup(PreIds(data), NAT_LT);
    var entities := Entities(AllIds(data), accounts);
    var recs := SortRecords(other);
    SortedMembers(data);
    SortedSame(data);
    PreIdsAre(data);
    assert Elems(precreate) == Created(data);
    ReplaysMeans(Created(data), recs);
    BareMeans(recs);
    var cs, ops := Replay(recs, precreate, entities);
    if cs == Err { return Err; }
    GroupingConserves(cs.value, recs, ops);
    AllBound(cs.value, recs, ops, Elems(precreate), entities);
    var access := DeriveAccess(cs.value, entities);
    if access == Err { return Err; }
    AccessIsExact(access.value, cs.value, recs, ops, Elems(precreate), entities);
    BindersAre(recs);
    ExactMeans(access.value, recs, entities, accounts);
    r := Ok(TestData(entities, access.value, accounts, Elems(precreate), cs.value));
  }

  lemma {:induction false} BindersAre(recs: seq<Record>)
    ensures forall id :: id in Binders(recs) <==> EverBound(recs, id)
  {
    forall id | id in Binders(recs) ensures EverBound(recs, id) {
      var rec :| rec in recs && rec.kind == Bind && id in rec.ids;
      var b :| 0 <= b < |recs| && recs[b] == rec;
    }
  }

  lemma {:induction false} SortedMembers(data: seq<Record>)
    ensures var recs := SortRecords(Others(data));
            Ordered(recs) && forall rec :: rec in recs <==> rec in data && rec.kind != Precreate
  {
    var other := Others(data);
    var recs := SortRecords(other);
    SortIsStable(other, 0, 0);
    OthersAre(data);
    forall rec ensures rec in recs <==> rec in other {
      assert rec in multiset(recs) <==> rec in multiset(other);
    }
  }

  lemma {:induction false} SortedSame(data: seq<Record>)
    requires forall rec | rec in data :: Normal(rec)
    ensures var recs := SortRecords(Others(data));
            && (forall i | 0 <= i < |recs| :: Normal(recs[i]) && forall id | id in recs[i].ids :: id in AllIds(data))
            && Binders(recs) == Binders(Others(data)) && Binders(recs) <= AllIds(data)
  {
    SortedMembers(data);
    OthersAre(data);
    var other := Others(data);
    var recs := SortRecords(other);
    SameBinders(recs, other);
    forall i | 0 <= i < |recs| ensures Normal(recs[i]) && forall id | id in recs[i].ids :: id in AllIds(data) {
      assert recs[i] in recs;
    }
  }

  lemma {:induction false} SameBinders(a: seq<Record>, b: seq<Record>)
    requires forall rec :: rec in a <==> rec in b
    ensures Binders(a) == Binders(b)
  {
  }
}
