/** A table with a primary key `uuid` and three further UNIQUE columns, the shape
    that `account_t` and `group_t` share. `Put` is the abstract write that both the
    account upsert and the group `INSERT OR REPLACE` have to implement; the rest of
    the module says what a whole history of writes leaves behind. */
module KeyedTable {
  import opened Prelude

  // The UNIQUE columns besides the primary key.
  datatype Keys = Keys(name: string, spn: string, gid: nat)

  // One row. Groups have no password column: theirs is None throughout.
  datatype Row<T> = Row(keys: Keys, password: Option<string>, token: T, expiry: int)

  type Table<T> = map<string, Row<T>>

  datatype Id = Name(name: string) | Gid(gid: nat)

  predicate Clash(a: Keys, b: Keys) {
    a.name == b.name || a.spn == b.spn || a.gid == b.gid
  }

  ghost predicate Unique<T>(t: Table<T>) {
    forall u, v | u in t && v in t && u != v :: !Clash(t[u].keys, t[v].keys)
  }

  // ---------------------------------------------------------------- statements

  // DELETE ... WHERE NOT uuid = u AND (name = .. OR spn = .. OR gidnumber = ..)
  function DeleteClashing<T>(t: Table<T>, u: string, k: Keys): Table<T> {
    map v | v in t && (v == u || !Clash(t[v].keys, k)) :: t[v]
  }

  // Would storing keys k under uuid u break a UNIQUE column?
  predicate Violates<T>(t: Table<T>, u: string, k: Keys) {
    exists v :: v in t && v != u && Clash(t[v].keys, k)
  }

  // The abstract write: purge what clashes, keep the password of an existing row.
  function Put<T>(t: Table<T>, u: string, k: Keys, token: T, expiry: int): Table<T> {
    DeleteClashing(t, u, k)[u := Row(k, if u in t then t[u].password else None, token, expiry)]
  }

  // UPDATE ... WHERE uuid = u: the table and the number of rows changed, or an error
  // when a UNIQUE column would repeat.
  function UpdateRow<T>(t: Table<T>, u: string, k: Keys, token: T, expiry: int): Result<(Table<T>, nat)> {
    if u !in t then Ok((t, 0))
    else if Violates(t, u, k) then Err
    else Ok((t[u := Row(k, t[u].password, token, expiry)], 1))
  }

  // INSERT ... ON CONFLICT(uuid) DO UPDATE: the table and whether the conflict clause
  // fired. That clause stores the name in the spn column.
  function InsertRow<T>(t: Table<T>, u: string, k: Keys, token: T, expiry: int): Result<(Table<T>, bool)> {
    if u in t then
      var k' := Keys(k.name, k.name, k.gid);
      if Violates(t, u, k') then Err
      else Ok((t[u := Row(k', t[u].password, token, expiry)], true))
    else if Violates(t, u, k) then Err
    else Ok((t[u := Row(k, None, token, expiry)], false))
  }

  // INSERT OR REPLACE: every row in the way goes, whichever column it blocks.
  function ReplaceRow<T>(t: Table<T>, u: string, k: Keys, token: T, expiry: int): Table<T> {
    (t - Displaced(t, u, k))[u := Row(k, None, token, expiry)]
  }

  function Displaced<T>(t: Table<T>, u: string, k: Keys): set<string> {
    set v | v in t && (v == u || Clash(t[v].keys, k))
  }

  function ExpireAll<T>(t: Table<T>): Table<T> {
    map u | u in t :: t[u].(expiry := 0)
  }

  function SetPassword<T>(t: Table<T>, u: string, cred: string): Table<T> {
    if u in t then t[u := t[u].(password := Some(cred))] else t
  }

  lemma {:induction false} PutKeepsUnique<T>(t: Table<T>, u: string, k: Keys, token: T, expiry: int)
    requires Unique(t)
    ensures Unique(Put(t, u, k, token, expiry))
    ensures !Violates(DeleteClashing(t, u, k), u, k)
  {
  }

  lemma {:induction false} SetPasswordKeepsRows<T>(t: Table<T>, u: string, cred: string)
    ensures var t' := SetPassword(t, u, cred);
            && t'.Keys == t.Keys
            && forall v | v in t :: t'[v] == t[v].(password := t'[v].password)
  {
  }

  // Neither statement of the account upsert can fail on a UNIQUE column, the
  // conflict clause can never fire, and together they are one Put.
  lemma {:induction false} UpsertRefinesPut<T>(t: Table<T>, u: string, k: Keys, token: T, expiry: int)
    ensures var t1 := DeleteClashing(t, u, k);
            var updated := UpdateRow(t1, u, k, token, expiry);
            && updated.Ok?
            && (updated.value.1 == 0 <==> u !in t)
            && (updated.value.1 != 0 ==> updated.value.0 == Put(t, u, k, token, expiry))
            && (updated.value.1 == 0 ==>
                  InsertRow(updated.value.0, u, k, token, expiry) == Ok((Put(t, u, k, token, expiry), false)))
  {
  }

  ghost predicate NoPasswords<T>(t: Table<T>) {
    forall u | u in t :: t[u].password == None
  }

  // The group write is the same Put, because no group row has a password to keep.
  lemma {:induction false} ReplaceRefinesPut<T>(t: Table<T>, u: string, k: Keys, token: T, expiry: int)
    requires NoPasswords(t)
    ensures ReplaceRow(t, u, k, token, expiry) == Put(t, u, k, token, expiry)
    ensures NoPasswords(Put(t, u, k, token, expiry))
  {
  }

  // ------------------------------------------------------------------- lookups

  predicate Fits(u: string, k: Keys, id: Id) {
    match id
    case Name(n) => u == n || k.name == n || k.spn == n
    case Gid(g) => k.gid == g
  }

  predicate Matches<T>(t: Table<T>, u: string, id: Id)
    requires u in t
  {
    Fits(u, t[u].keys, id)
  }

  // Two rows answer to one identifier: a name equal to another row's spn, say.
  ghost predicate Ambiguous<T>(t: Table<T>, id: Id) {
    exists u, v :: u in t && v in t && u != v && Matches(t, u, id) && Matches(t, v, id)
  }

  ghost function Find<T>(t: Table<T>, id: Id): Result<Option<(T, int)>> {
    if Ambiguous(t, id) then Err
    else if u :| u in t && Matches(t, u, id) then
      if t[u].expiry < 0 then Err else Ok(Some((t[u].token, t[u].expiry)))
    else Ok(None)
  }

  // A lookup by name compares uuid, name and spn, one by gid the gid alone: no row that
  // answers, no result; two rows, or an expiry below zero, an error; otherwise that row's
  // token and expiry.
  lemma {:induction false} FindMeans<T>(t: Table<T>, id: Id)
    ensures Find(t, id) == Ok(None) <==> forall u | u in t :: !Hit(t, u, id)
    ensures forall tok, x :: Find(t, id) == Ok(Some((tok, x))) <==>
              exists u :: u in t && Hit(t, u, id) && t[u].token == tok && t[u].expiry == x && x >= 0
                          && forall v | v in t && Hit(t, v, id) :: v == u
  {
    assert forall u | u in t :: Hit(t, u, id) <==> Matches(t, u, id);
  }

  predicate Hit<T>(t: Table<T>, u: string, id: Id)
    requires u in t
  {
    match id
    case Name(n) => n in [u, t[u].keys.name, t[u].keys.spn]
    case Gid(g) => g == t[u].keys.gid
  }

  // After a write each of the four identifiers finds the token just written, with
  // its expiry, exactly when no other surviving row carries the same text in a
  // column of a different kind. The gid always does.
  lemma {:induction false} PutThenFind<T>(t: Table<T>, u: string, k: Keys, token: T, expiry: int, id: Id)
    requires Unique(t) && expiry >= 0
    requires id == Gid(k.gid) || id in {Name(u), Name(k.name), Name(k.spn)}
    ensures var t' := Put(t, u, k, token, expiry);
            Find(t', id) == Ok(Some((token, expiry)))
            <==> forall v | v in t && v != u && !Clash(t[v].keys, k) :: !Matches(t, v, id)
    ensures Find(Put(t, u, k, token, expiry), Gid(k.gid)) == Ok(Some((token, expiry)))
  {
    var t' := Put(t, u, k, token, expiry);
    assert u in t' && Matches(t', u, id) && Matches(t', u, Gid(k.gid));
    PutKeepsUnique(t, u, k, token, expiry);
    FindWritten(t', u, id);
    FindWritten(t', u, Gid(k.gid));
    assert forall v | v in t' && v != u :: v in t && !Clash(t[v].keys, k) && t'[v] == t[v];
    assert forall v | v in t && v != u && !Clash(t[v].keys, k) :: v in t' && t'[v] == t[v];
  }

  // It can fail: a name that is the spn of the row just written finds neither.
  lemma {:induction false} NameMeetsSpn<T>(token: T)
    ensures var t: Table<T> := map["1" := Row(Keys("n", "s", 1), None, token, 0)];
            && Unique(t) && Find(t, Name("n")) == Ok(Some((token, 0)))
            && Find(Put(t, "2", Keys("m", "n", 2), token, 0), Name("n")) == Err
  {
    var t: Table<T> := map["1" := Row(Keys("n", "s", 1), None, token, 0)];
    FindWritten(t, "1", Name("n"));
    var t' := Put(t, "2", Keys("m", "n", 2), token, 0);
    assert "1" in t' && "2" in t' && Matches(t', "1", Name("n")) && Matches(t', "2", Name("n"));
    assert Ambiguous(t', Name("n"));
  }

  // A row that answers to an identifier is found by it unless another one does too.
  lemma {:induction false} FindWritten<T>(t: Table<T>, u: string, id: Id)
    requires u in t && Matches(t, u, id) && t[u].expiry >= 0
    ensures Find(t, id) == Ok(Some((t[u].token, t[u].expiry))) <==> forall v | v in t && v != u :: !Matches(t, v, id)
    ensures Find(t, id).Ok? <==> forall v | v in t && v != u :: !Matches(t, v, id)
  {
    if v :| v in t && v != u && Matches(t, v, id) {
      assert Ambiguous(t, id);
    }
  }

  // Changing gids, names or spns of other rows cannot make a gid ambiguous.
  lemma {:induction false} GidNeverAmbiguous<T>(t: Table<T>, g: nat)
    requires Unique(t)
    ensures !Ambiguous(t, Gid(g))
  {
  }

  // ----------------------------------------------------------------- histories

  datatype Change<T> =
    | Write(uuid: string, keys: Keys, token: T, expiry: int)
    | Remove(uuid: string)
    | Wipe
    | Expire
    | Password(uuid: string, cred: string)

  function Apply<T>(t: Table<T>, c: Change<T>): Table<T> {
    match c
    case Write(u, k, token, e) => Put(t, u, k, token, e)
    case Remove(u) => t - {u}
    case Wipe => map[]
    case Expire => ExpireAll(t)
    case Password(u, cred) => SetPassword(t, u, cred)
  }

  // The table after the first n changes of a history that starts empty.
  function After<T>(h: seq<Change<T>>, n: nat): Table<T>
    requires n <= |h|
  {
    if n == 0 then map[] else Apply(After(h, n - 1), h[n - 1])
  }

  ghost predicate WritesAt<T>(h: seq<Change<T>>, i: int, u: string) {
    0 <= i < |h| && h[i].Write? && h[i].uuid == u
  }

  // c throws out the row (u, k).
  predicate Evicts<T>(c: Change<T>, u: string, k: Keys) {
    match c
    case Write(v, l, _, _) => v != u && (l.name == k.name || l.spn == k.spn || l.gid == k.gid)
    case Remove(v) => v == u
    case Wipe => true
    case _ => false
  }

  // i is the latest write of u among the first n changes and nothing after it
  // throws the row out.
  ghost predicate Stands<T>(h: seq<Change<T>>, n: nat, i: int, u: string)
    requires n <= |h|
  {
    && i < n && WritesAt(h, i, u)
    && (forall j | i < j < n :: !WritesAt(h, j, u))
    && (forall j | i < j < n :: !Evicts(h[j], u, h[i].keys))
  }

  ghost predicate ExpiredSince<T>(h: seq<Change<T>>, n: nat, i: int)
    requires n <= |h|
  {
    exists j :: i < j < n && 0 <= j && h[j].Expire?
  }

  // One change, seen from one row.
  lemma {:induction false} ApplyAt<T>(t: Table<T>, c: Change<T>, u: string)
    ensures c.Write? && c.uuid == u ==> u in Apply(t, c)
    ensures !(c.Write? && c.uuid == u) ==>
              (u in Apply(t, c) <==> u in t && !Evicts(c, u, t[u].keys))
  {
  }

  lemma {:induction false} StandingRow<T>(h: seq<Change<T>>, n: nat, i: int, u: string)
    requires n <= |h| && Stands(h, n, i, u)
    ensures u in After(h, n)
    ensures After(h, n)[u].keys == h[i].keys && After(h, n)[u].token == h[i].token
    ensures After(h, n)[u].expiry == if ExpiredSince(h, n, i) then 0 else h[i].expiry
  {
    if i < n - 1 {
      assert Stands(h, n - 1, i, u);
      StandingRow(h, n - 1, i, u);
      assert !WritesAt(h, n - 1, u) && !Evicts(h[n - 1], u, h[i].keys);
      assert ExpiredSince(h, n, i) <==> ExpiredSince(h, n - 1, i) || h[n - 1].Expire?;
    }
  }

  lemma {:induction false} PresentRowStands<T>(h: seq<Change<T>>, n: nat, u: string) returns (i: int)
    requires n <= |h| && u in After(h, n)
    ensures Stands(h, n, i, u)
  {
    if WritesAt(h, n - 1, u) {
      i := n - 1;
    } else {
      ApplyAt(After(h, n - 1), h[n - 1], u);
      i := PresentRowStands(h, n - 1, u);
      StandingRow(h, n - 1, i, u);
      assert forall j | i < j < n :: j == n - 1 || !Evicts(h[j], u, h[i].keys);
    }
  }

  // Last writer wins, over every history: a uuid is present exactly when its latest
  // write still stands, and then its row is that write, with expiry 0 if the table
  // was invalidated since.
  lemma {:induction false} LastWriterWins<T>(h: seq<Change<T>>, n: nat, u: string)
    requires n <= |h|
    ensures u in After(h, n) <==> exists i :: Stands(h, n, i, u)
    ensures forall i :: Stands(h, n, i, u) ==>
              var row := After(h, n)[u];
              && row.keys == h[i].keys && row.token == h[i].token
              && row.expiry == if ExpiredSince(h, n, i) then 0 else h[i].expiry
  {
    if u in After(h, n) {
      var i := PresentRowStands(h, n, u);
    }
    forall i | Stands(h, n, i, u)
      ensures u in After(h, n)
      ensures var row := After(h, n)[u];
              && row.keys == h[i].keys && row.token == h[i].token
              && row.expiry == if ExpiredSince(h, n, i) then 0 else h[i].expiry
    {
      StandingRow(h, n, i, u);
    }
  }

  // The password of one row after one change.
  lemma {:induction false} PasswordAt<T>(t: Table<T>, c: Change<T>, u: string)
    requires u in Apply(t, c)
    ensures Apply(t, c)[u].password ==
            if c.Password? && c.uuid == u then Some(c.cred) else if u in t then t[u].password else None
    ensures c.Password? ==> u in t
  {
  }

  // Change k set u's password to cred, nothing set it again, and the row has stayed
  // in the table ever since.
  ghost predicate PasswordFrom<T>(h: seq<Change<T>>, n: nat, k: int, u: string, cred: string)
    requires n <= |h|
  {
    && 0 <= k < n && h[k] == Password(u, cred)
    && (forall j | k < j < n :: !(h[j].Password? && h[j].uuid == u))
    && (forall m | k <= m <= n :: u in After(h, m))
  }

  // A stored password is always the latest one set, in the present life of the row:
  // rewriting the row keeps it and re-creating the row loses it.
  lemma {:induction false} PasswordProvenance<T>(h: seq<Change<T>>, n: nat, u: string, cred: string)
    requires n <= |h|
    ensures u in After(h, n) && After(h, n)[u].password == Some(cred)
            <==> exists k :: PasswordFrom(h, n, k, u, cred)
  {
    if u in After(h, n) && After(h, n)[u].password == Some(cred) {
      var k := PasswordStored(h, n, u, cred);
    }
    if k :| PasswordFrom(h, n, k, u, cred) {
      PasswordKept(h, n, k, u, cred);
    }
  }

  lemma {:induction false} PasswordStored<T>(h: seq<Change<T>>, n: nat, u: string, cred: string) returns (k: int)
    requires n <= |h| && u in After(h, n) && After(h, n)[u].password == Some(cred)
    ensures PasswordFrom(h, n, k, u, cred)
  {
    PasswordAt(After(h, n - 1), h[n - 1], u);
    if h[n - 1].Password? && h[n - 1].uuid == u {
      k := n - 1;
    } else {
      k := PasswordStored(h, n - 1, u, cred);
    }
  }

  lemma {:induction false} PasswordKept<T>(h: seq<Change<T>>, n: nat, k: int, u: string, cred: string)
    requires n <= |h| && PasswordFrom(h, n, k, u, cred)
    ensures u in After(h, n) && After(h, n)[u].password == Some(cred)
  {
    assert u in After(h, n) && u in After(h, n - 1);
    PasswordAt(After(h, n - 1), h[n - 1], u);
    if k < n - 1 {
      PasswordKept(h, n - 1, k, u, cred);
    }
  }

  lemma {:induction false} ApplyKeepsUnique<T>(t: Table<T>, c: Change<T>)
    requires Unique(t)
    ensures Unique(Apply(t, c))
  {
    match c
    case Write(u, k, token, e) => PutKeepsUnique(t, u, k, token, e);
    case Password(u, cred) => SetPasswordKeepsRows(t, u, cred);
    case _ =>
  }

  lemma {:induction false} HistoryKeepsUnique<T>(h: seq<Change<T>>, n: nat)
    requires n <= |h|
    ensures Unique(After(h, n))
  {
    if n > 0 {
      HistoryKeepsUnique(h, n - 1);
      ApplyKeepsUnique(After(h, n - 1), h[n - 1]);
    }
  }

  // Column by column: no two rows share a name, an spn or a gid.
  lemma {:induction false} ColumnsUnique<T>(h: seq<Change<T>>, n: nat, u: string, v: string)
    requires n <= |h| && u in After(h, n) && v in After(h, n) && u != v
    ensures var a, b := After(h, n)[u].keys, After(h, n)[v].keys;
            a.name != b.name && a.spn != b.spn && a.gid != b.gid
  {
    HistoryKeepsUnique(h, n);
  }
}
