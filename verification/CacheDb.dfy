/** The database behind the cache: one connection, and transactions on it that take
    effect on commit and roll back when dropped. Any statement may hit a storage
    error; the ghost field `fault` remembers that one did. */
module CacheDb {
  import opened Prelude
  import opened KeyedTable
  import opened CacheTables
  import opened Memberships

  class Connection {
    const fk: bool
    var tables: Tables
    var journal: Option<Tables>

    ghost predicate Idle()
      reads this
    {
      journal == None
    }

    constructor (fk: bool)
      ensures Idle() && tables == EMPTY && this.fk == fk
    {
      this.fk := fk;
      tables := EMPTY;
      journal := None;
    }
  }

  class DbTxn {
    const conn: Connection
    var committed: bool
    ghost var fault: bool

    ghost predicate Open()
      reads this, conn
    {
      !committed && conn.journal.Some?
    }

    // BEGIN TRANSACTION
    constructor (conn: Connection)
      requires conn.Idle()
      modifies conn
      ensures this.conn == conn && Open() && !fault
      ensures conn.tables == old(conn.tables) && conn.journal == Some(conn.tables)
    {
      this.conn := conn;
      committed := false;
      fault := false;
      new;
      conn.journal := Some(conn.tables);
    }

    // Whether the storage engine carries out the next statement.
    method Disk() returns (ok: bool)
      modifies this`fault
      ensures fault == (old(fault) || !ok)
    {
      ok := *;
      fault := fault || !ok;
    }

    method Commit() returns (r: Result<()>)
      requires conn.journal.Some?
      modifies this`committed, conn`journal
      ensures old(committed) ==> r == Err && conn.journal == old(conn.journal)
      ensures !old(committed) ==> r == Ok(()) && conn.journal == None
      ensures committed
    {
      if committed {
        return Err;
      }
      committed := true;
      conn.journal := None;
      return Ok(());
    }

    // ROLLBACK TRANSACTION unless committed.
    method Drop()
      requires committed || conn.journal.Some?
      modifies conn
      ensures old(committed) ==> conn.tables == old(conn.tables) && conn.journal == old(conn.journal)
      ensures !old(committed) ==> conn.journal == None && conn.tables == old(conn.journal.value)
    {
      if !committed {
        conn.tables := conn.journal.value;
        conn.journal := None;
      }
    }

    method Invalidate() returns (r: Result<()>)
      requires Open() && !fault
      modifies this`fault, conn`tables
      ensures r.Ok? <==> !fault
      ensures r.Ok? ==> Open() && conn.tables == InvalidateTables(old(conn.tables))
    {
      var ok := Disk();
      if !ok { return Err; }
      conn.tables := conn.tables.(groups := ExpireAll(conn.tables.groups));
      ok := Disk();
      if !ok { return Err; }
      conn.tables := conn.tables.(accounts := ExpireAll(conn.tables.accounts));
      return Ok(());
    }

    method ClearCache() returns (r: Result<()>)
      requires Open() && !fault
      modifies this`fault, conn`tables
      ensures r.Ok? <==> !fault
      ensures r.Ok? ==> Open() && conn.tables == ClearTables(old(conn.tables), conn.fk)
    {
      var ok := Disk();
      if !ok { return Err; }
      var t := conn.tables;
      conn.tables := t.(groups := map[], members := Cascade(conn.fk, t.members, t.groups.Keys, {}));
      ok := Disk();
      if !ok { return Err; }
      t := conn.tables;
      conn.tables := t.(accounts := map[], members := Cascade(conn.fk, t.members, {}, t.accounts.Keys));
      return Ok(());
    }

    // SELECT token, expiry FROM account_t WHERE ..., then at most one row.
    method GetAccount(id: Id) returns (r: Result<Option<(UserToken, int)>>)
      requires Open() && !fault
      modifies this`fault
      ensures r == if fault then Err else Find(conn.tables.accounts, id)
    {
      var ok := Disk();
      if !ok { return Err; }
      r := SelectOne(conn.tables.accounts, id);
    }

    method GetGroup(id: Id) returns (r: Result<Option<(GroupToken, int)>>)
      requires Open() && !fault
      modifies this`fault
      ensures r == if fault then Err else Find(conn.tables.groups, id)
    {
      var ok := Disk();
      if !ok { return Err; }
      r := SelectOne(conn.tables.groups, id);
    }

    // DELETE what conflicts, UPDATE the row, INSERT it if there was none.
    method UpsertAccount(account: UserToken, expire: nat) returns (r: Result<()>)
      requires Open() && !fault
      modifies this`fault, conn`tables
      ensures r.Ok? <==> !fault
      ensures r.Ok? ==>
                conn.tables == old(conn.tables).(
                  accounts := Put(old(conn.tables).accounts, account.uuid, UserKeys(account), account, expire),
                  members := Cascade(
                    conn.fk, old(conn.tables).members, {},
                    Displaced(old(conn.tables).accounts, account.uuid, UserKeys(account)) - {account.uuid}))
    {
      var u, k := account.uuid, UserKeys(account);
      UpsertRefinesPut(conn.tables.accounts, u, k, account, expire);
      var ok := Disk();
      if !ok { return Err; }
      var purged := Displaced(conn.tables.accounts, u, k) - {u};
      conn.tables := conn.tables.(accounts := DeleteClashing(conn.tables.accounts, u, k),
                                  members := Cascade(conn.fk, conn.tables.members, {}, purged));
      ok := Disk();
      if !ok { return Err; }
      var (updatedTable, updated) := UpdateRow(conn.tables.accounts, u, k, account, expire).value;
      conn.tables := conn.tables.(accounts := updatedTable);
      if updated == 0 {
        ok := Disk();
        if !ok { return Err; }
        var (insertedTable, _) := InsertRow(conn.tables.accounts, u, k, account, expire).value;
        conn.tables := conn.tables.(accounts := insertedTable);
      }
      return Ok(());
    }

    // DELETE the memberships that exist, then INSERT one per group.
    method RelinkAccount(u: string, groups: seq<GroupToken>) returns (r: Result<()>)
      requires !fault && u in conn.tables.accounts
      modifies this`fault, conn`tables
      ensures r.Ok? <==> !fault && Linkable(old(conn.tables), conn.fk, groups)
      ensures r.Ok? ==> conn.tables == old(conn.tables).(
                          members := Prune(old(conn.tables).members, {}, {u}) + Links(u, groups))
    {
      var ok := Disk();
      if !ok { return Err; }
      ghost var t := conn.tables.(members := Prune(conn.tables.members, {}, {u}));
      conn.tables := conn.tables.(members := Prune(conn.tables.members, {}, {u}));
      assert t.members + Links(u, groups[..0]) == t.members;
      for i := 0 to |groups|
        invariant !fault && Linkable(old(conn.tables), conn.fk, groups[..i])
        invariant conn.tables == t.(members := t.members + Links(u, groups[..i]))
      {
        ok := Disk();
        if !ok { return Err; }
        if conn.fk && (groups[i].uuid !in conn.tables.groups || u !in conn.tables.accounts) {
          return Err;
        }
        conn.tables := conn.tables.(members := conn.tables.members + [Member(groups[i].uuid, u)]);
        LinksSnoc(u, groups, i);
        assert forall j | 0 <= j <= i :: groups[..i + 1][j] == groups[j] && (j < i ==> groups[..i][j] == groups[j]);
      }
      assert groups[..|groups|] == groups;
      return Ok(());
    }

    method UpdateAccount(account: UserToken, expire: nat) returns (r: Result<()>)
      requires Open() && !fault
      modifies this`fault, conn`tables
      ensures r.Ok? <==> !fault && expire <= I64_MAX && Linkable(old(conn.tables), conn.fk, account.groups)
      ensures r.Ok? ==> Open() && conn.tables == PutAccount(old(conn.tables), conn.fk, account, expire)
    {
      if expire > I64_MAX { return Err; }
      r := UpsertAccount(account, expire);
      if r == Err { return; }
      r := RelinkAccount(account.uuid, account.groups);
    }

    method DeleteAccount(u: string) returns (r: Result<()>)
      requires Open() && !fault
      modifies this`fault, conn`tables
      ensures r.Ok? <==> !fault
      ensures r.Ok? ==> Open() && conn.tables == DelAccount(old(conn.tables), conn.fk, u)
    {
      var ok := Disk();
      if !ok { return Err; }
      conn.tables := DelAccount(conn.tables, conn.fk, u);
      return Ok(());
    }

    method UpdateAccountPassword(u: string, cred: string) returns (r: Result<()>)
      requires Open() && !fault
      modifies this`fault, conn`tables
      ensures r.Ok? <==> !fault
      ensures r.Ok? ==> Open() && conn.tables == PutPassword(old(conn.tables), u, cred)
    {
      var ok := Disk();
      if !ok { return Err; }
      conn.tables := PutPassword(conn.tables, u, cred);
      return Ok(());
    }

    method CheckAccountPassword(u: string, cred: string) returns (r: Result<bool>)
      requires Open() && !fault
      modifies this`fault
      ensures r == if fault then Err else Ok(PasswordOk(conn.tables, u, cred))
    {
      var ok := Disk();
      if !ok { return Err; }
      var accounts := conn.tables.accounts;
      if u !in accounts || accounts[u].password == None {
        return Ok(false);
      }
      return Ok(accounts[u].password.value == cred);
    }

    method GetGroupMembers(g: string) returns (r: Result<seq<UserToken>>)
      requires Open() && !fault
      modifies this`fault
      ensures r == if fault then Err else Ok(Join(conn.tables.accounts, conn.tables.members, g))
    {
      var ok := Disk();
      if !ok { return Err; }
      var rows := JoinRows(conn.tables.accounts, conn.tables.members, g);
      return Ok(rows);
    }

    method UpdateGroup(group: GroupToken, expire: nat) returns (r: Result<()>)
      requires Open() && !fault
      modifies this`fault, conn`tables
      ensures r.Ok? <==> !fault && expire <= I64_MAX
      ensures r.Ok? ==> Open() && conn.tables == PutGroup(old(conn.tables), conn.fk, group, expire)
    {
      if expire > I64_MAX { return Err; }
      var ok := Disk();
      if !ok { return Err; }
      var t, k := conn.tables, GroupKeys(group);
      conn.tables := t.(groups := ReplaceRow(t.groups, group.uuid, k, group, expire),
                        members := Cascade(conn.fk, t.members, Displaced(t.groups, group.uuid, k), {}));
      return Ok(());
    }

    method DeleteGroup(u: string) returns (r: Result<()>)
      requires Open() && !fault
      modifies this`fault, conn`tables
      ensures r.Ok? <==> !fault
      ensures r.Ok? ==> Open() && conn.tables == DelGroup(old(conn.tables), conn.fk, u)
    {
      var ok := Disk();
      if !ok { return Err; }
      conn.tables := DelGroup(conn.tables, conn.fk, u);
      return Ok(());
    }
  }

  lemma {:induction false} LinksSnoc(u: string, gs: seq<GroupToken>, i: nat)
    requires i < |gs|
    ensures Links(u, gs[..i + 1]) == Links(u, gs[..i]) + [Member(gs[i].uuid, u)]
  {
    if i == 0 {
      assert gs[..1][1..] == [];
    } else {
      LinksSnoc(u, gs[1..], i - 1);
      assert gs[..i + 1][1..] == gs[1..][..i] && gs[..i][1..] == gs[1..][..i - 1];
    }
  }

  method JoinRows(accounts: Table<UserToken>, ms: seq<Member>, g: string) returns (rows: seq<UserToken>)
    ensures rows == Join(accounts, ms, g)
  {
    rows := [];
    for i := 0 to |ms|
      invariant Join(accounts, ms, g) == rows + Join(accounts, ms[i..], g)
    {
      assert ms[i..][1..] == ms[i + 1..];
      if ms[i].g == g && ms[i].a in accounts {
        ghost var rest := Join(accounts, ms[i + 1..], g);
        assert rows + ([accounts[ms[i].a].token] + rest) == rows + [accounts[ms[i].a].token] + rest;
        rows := rows + [accounts[ms[i].a].token];
      }
    }
  }

  // Collect the rows a lookup matches, and refuse two or more.
  method SelectOne<T>(t: Table<T>, id: Id) returns (r: Result<Option<(T, int)>>)
    ensures r == Find(t, id)
  {
    var data: seq<(T, int)> := [];
    ghost var hits: seq<string> := [];
    var left := t.Keys;
    while left != {}
      invariant left <= t.Keys && |hits| == |data|
      invariant forall i | 0 <= i < |hits| ::
                  hits[i] in t && hits[i] !in left && Matches(t, hits[i], id)
                  && data[i] == (t[hits[i]].token, t[hits[i]].expiry)
      invariant forall i, j | 0 <= i < j < |hits| :: hits[i] != hits[j]
      invariant forall u | u in t && u !in left && Matches(t, u, id) :: u in hits
    {
      var u :| u in left;
      if Matches(t, u, id) {
        data := data + [(t[u].token, t[u].expiry)];
        hits := hits + [u];
      }
      left := left - {u};
    }
    if |data| >= 2 {
      assert Matches(t, hits[0], id) && Matches(t, hits[1], id) && hits[0] != hits[1];
      return Err;
    }
    if |data| == 0 {
      return Ok(None);
    }
    assert Matches(t, hits[0], id);
    if data[0].1 < 0 {
      return Err;
    }
    return Ok(Some(data[0]));
  }
}
