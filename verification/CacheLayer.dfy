/** The cache layer as an object over the database connection, the mode and the
    negative cache. Every method is proved to do exactly what CacheSpec says, for some
    choice of storage errors, which it reports in its ghost result `f`. */
module CacheLayer {
  import opened Prelude
  import opened KeyedTable
  import opened CacheTables
  import opened Memberships
  import opened CacheDb
  import opened NegativeCache
  import opened CacheSpec

  const NO_FAULTS := Faults(false, false, false)

  class Cache {
    const cfg: Config
    const db: Connection
    const nxcache: Lru
    var mode: CacheState

    ghost predicate Ready()
      reads this, db, nxcache
    {
      db.Idle() && db.fk == cfg.fk && nxcache.Ok() && nxcache.cap == NXCACHE_SIZE
    }

    ghost function View(): State
      reads this, db, nxcache
    {
      State(db.tables, mode, nxcache.entries)
    }

    // On a database new or left by an earlier process: offline, with the next check due at
    // once, which is a restart from any mode and any memory.
    constructor (cfg: Config, db: Connection, env: Env)
      requires db.Idle() && db.fk == cfg.fk
      ensures Ready() && this.db == db && fresh(nxcache) && this.cfg == cfg && db.tables == old(db.tables)
      ensures View() == State(db.tables, OfflineNextCheck(env.tRead), [])
      ensures forall m, nx :: View() == Next(cfg, State(db.tables, m, nx), Event(Op.Restart, env, NO_FAULTS))
    {
      this.cfg := cfg;
      this.db := db;
      nxcache := new Lru(NXCACHE_SIZE);
      mode := OfflineNextCheck(env.tRead);
    }

    method AttemptOnline(env: Env)
      modifies this
      ensures View() == Next(cfg, old(View()), Event(Op.AttemptOnline, env, NO_FAULTS))
      ensures mode == OfflineNextCheck(env.tRead)
    {
      mode := OfflineNextCheck(env.tRead);
    }

    method MarkOffline(env: Env)
      modifies this
      ensures View() == Next(cfg, old(View()), Event(Op.MarkOffline, env, NO_FAULTS))
      ensures mode == Offline
    {
      mode := Offline;
    }

    method ClearCache(env: Env) returns (r: Result<()>, ghost f: Faults)
      requires Ready()
      modifies db, nxcache
      ensures Ready() && (r.Ok? <==> !f.write)
      ensures View() == Next(cfg, old(View()), Event(Op.ClearCache, env, f))
    {
      nxcache.Clear();
      var txn := new DbTxn(db);
      r := txn.ClearCache();
      f := NO_FAULTS.(write := txn.fault);
      if r.Ok? {
        r := txn.Commit();
      }
      txn.Drop();
    }

    method Invalidate(env: Env) returns (r: Result<()>, ghost f: Faults)
      requires Ready()
      modifies db, nxcache
      ensures Ready() && (r.Ok? <==> !f.write)
      ensures View() == Next(cfg, old(View()), Event(Op.Invalidate, env, f))
    {
      nxcache.Clear();
      var txn := new DbTxn(db);
      r := txn.Invalidate();
      f := NO_FAULTS.(write := txn.fault);
      if r.Ok? {
        r := txn.Commit();
      }
      txn.Drop();
    }

    method GetCachedUsertoken(id: Id, now: int) returns (r: Result<(bool, Option<UserToken>)>, ghost fault: bool)
      requires Ready()
      modifies db, nxcache
      ensures Ready()
      ensures fault ==> r == Err && View() == old(View())
      ensures !fault ==> r == Cached(old(db.tables.accounts), old(nxcache.entries), id, now)
      ensures !fault ==> View() == old(View()).(nx := NxAfterRead(old(db.tables.accounts), old(nxcache.entries), id))
    {
      var txn := new DbTxn(db);
      var row := txn.GetAccount(id);
      fault := txn.fault;
      match row {
        case Err => r := Err;
        case Ok(Some((tok, expiry))) => r := Ok((now >= expiry * SECOND, Some(tok)));
        case Ok(None) =>
          var nx := nxcache.Get(id);
          r := Ok((nx == None || now >= nx.value, None));
      }
      txn.Drop();
    }

    method GetCachedGrouptoken(id: Id, now: int) returns (r: Result<(bool, Option<GroupToken>)>, ghost fault: bool)
      requires Ready()
      modifies db, nxcache
      ensures Ready()
      ensures fault ==> r == Err && View() == old(View())
      ensures !fault ==> r == Cached(old(db.tables.groups), old(nxcache.entries), id, now)
      ensures !fault ==> View() == old(View()).(nx := NxAfterRead(old(db.tables.groups), old(nxcache.entries), id))
    {
      var txn := new DbTxn(db);
      var row := txn.GetGroup(id);
      fault := txn.fault;
      match row {
        case Err => r := Err;
        case Ok(Some((tok, expiry))) => r := Ok((now >= expiry * SECOND, Some(tok)));
        case Ok(None) =>
          var nx := nxcache.Get(id);
          r := Ok((nx == None || now >= nx.value, None));
      }
      txn.Drop();
    }

    // All groups of the token and then the account, or nothing.
    method SetCacheUsertoken(token: UserToken, now: int, shellExists: bool)
      returns (r: Result<UserToken>, ghost fault: bool)
      requires Ready()
      modifies db
      ensures Ready()
      ensures match SaveUser(cfg, old(db.tables), WithShell(cfg, token, shellExists), now, fault)
              case None => r == Err && db.tables == old(db.tables)
              case Some(t) => r == Ok(WithShell(cfg, token, shellExists)) && db.tables == t
    {
      fault := false;
      var exTime := Deadline(cfg, now);
      if exTime < 0 {
        return Err, fault;
      }
      var offset := exTime / SECOND;
      var tok := token;
      if tok.shell == None || !shellExists {
        tok := tok.(shell := Some(cfg.defaultShell));
      }
      var txn := new DbTxn(db);
      var ok := StoreUser(txn, tok, offset);
      fault := txn.fault;
      if ok.Ok? {
        var _ := txn.Commit();
        r := Ok(tok);
      } else {
        r := Err;
      }
      txn.Drop();
    }

    // The account's membership rows refer to its groups, so those go in before it.
    method StoreUser(txn: DbTxn, tok: UserToken, offset: nat) returns (r: Result<()>)
      requires txn.conn == db && txn.Open() && !txn.fault
      modifies txn`fault, db`tables
      ensures r.Ok? <==> !txn.fault && offset <= I64_MAX
                         && Linkable(PutGroups(old(db.tables), db.fk, tok.groups, offset), db.fk, tok.groups)
      ensures r.Ok? ==> txn.Open()
                        && db.tables == PutAccount(
                             PutGroups(old(db.tables), db.fk, tok.groups, offset), db.fk, tok, offset)
    {
      for i := 0 to |tok.groups|
        invariant txn.Open() && !txn.fault
        invariant db.tables == PutGroups(old(db.tables), db.fk, tok.groups[..i], offset)
      {
        r := txn.UpdateGroup(tok.groups[i], offset);
        if r == Err { return; }
        assert tok.groups[..i + 1][..i] == tok.groups[..i];
      }
      assert tok.groups[..|tok.groups|] == tok.groups;
      r := txn.UpdateAccount(tok, offset);
    }

    method SetCacheGrouptoken(token: GroupToken, now: int) returns (r: Result<()>, ghost fault: bool)
      requires Ready()
      modifies db
      ensures Ready()
      ensures match SaveGroup(cfg, old(db.tables), token, now, fault)
              case None => r == Err && db.tables == old(db.tables)
              case Some(t) => r == Ok(()) && db.tables == t
    {
      fault := false;
      var exTime := Deadline(cfg, now);
      if exTime < 0 {
        return Err, fault;
      }
      var txn := new DbTxn(db);
      r := txn.UpdateGroup(token, exTime / SECOND);
      fault := txn.fault;
      if r.Ok? {
        r := txn.Commit();
      }
      txn.Drop();
    }

    method DeleteCacheUsertoken(u: string) returns (r: Result<()>, ghost fault: bool)
      requires Ready()
      modifies db
      ensures Ready() && (r.Ok? <==> !fault)
      ensures db.tables == if fault then old(db.tables) else DelAccount(old(db.tables), db.fk, u)
    {
      var txn := new DbTxn(db);
      r := txn.DeleteAccount(u);
      fault := txn.fault;
      if r.Ok? {
        r := txn.Commit();
      }
      txn.Drop();
    }

    method DeleteCacheGrouptoken(u: string) returns (r: Result<()>, ghost fault: bool)
      requires Ready()
      modifies db
      ensures Ready() && (r.Ok? <==> !fault)
      ensures db.tables == if fault then old(db.tables) else DelGroup(old(db.tables), db.fk, u)
    {
      var txn := new DbTxn(db);
      r := txn.DeleteGroup(u);
      fault := txn.fault;
      if r.Ok? {
        r := txn.Commit();
      }
      txn.Drop();
    }

    method SetCacheUserpassword(u: string, cred: string) returns (r: Result<()>, ghost fault: bool)
      requires Ready()
      modifies db
      ensures Ready() && (r.Ok? <==> !fault)
      ensures db.tables == if fault then old(db.tables) else PutPassword(old(db.tables), u, cred)
    {
      var txn := new DbTxn(db);
      r := txn.UpdateAccountPassword(u, cred);
      fault := txn.fault;
      if r.Ok? {
        r := txn.Commit();
      }
      txn.Drop();
    }

    method CheckCacheUserpassword(u: string, cred: string) returns (r: Result<bool>, ghost fault: bool)
      requires Ready()
      modifies db
      ensures Ready() && db.tables == old(db.tables)
      ensures r == if fault then Err else Ok(PasswordOk(db.tables, u, cred))
    {
      var txn := new DbTxn(db);
      r := txn.CheckAccountPassword(u, cred);
      fault := txn.fault;
      if r.Ok? {
        var _ := txn.Commit();
      }
      txn.Drop();
    }

    // The names of the members as users see them, in order.
    method GetGroupmembers(g: string) returns (names: seq<string>, ghost fault: bool)
      requires Ready()
      modifies db
      ensures Ready() && db.tables == old(db.tables)
      ensures fault ==> names == []
      ensures !fault ==> var toks := Join(db.tables.accounts, db.tables.members, g);
                         |names| == |toks| && forall i | 0 <= i < |toks| ::
                           names[i] == if cfg.uidAttr == UidSpn then toks[i].spn else toks[i].name
    {
      var txn := new DbTxn(db);
      var r := txn.GetGroupMembers(g);
      fault := txn.fault;
      var toks := if r.Ok? then r.value else [];
      names := seq(|toks|, i requires 0 <= i < |toks| => TokenUidattr(toks[i]));
      txn.Drop();
    }

    function TokenUidattr(tok: UserToken): string {
      match cfg.uidAttr
      case UidSpn => tok.spn
      case UidName => tok.name
    }

    method TestConnection(env: Env) returns (up: bool, ghost sent: seq<Request>)
      modifies this
      ensures Outcome(View(), up, sent) == Probe(old(View()), env)
    {
      match mode {
        case Offline => return false, [];
        case Online => return true, [];
        case OfflineNextCheck(_) =>
          sent := [AuthAnonymous];
          if env.probeOk {
            mode := Online;
            up := true;
          } else {
            mode := OfflineNextCheck(env.tProbe + BACKOFF);
            up := false;
          }
      }
    }

    // Drop the item from the cache and remember that the id is unknown.
    method ForgetUser(id: Id, item: Option<UserToken>, now: int)
      returns (r: Result<Option<UserToken>>, ghost fault: bool)
      requires Ready()
      modifies db, nxcache
      ensures Ready()
      ensures item.Some? && fault ==> r == Err && View() == old(View())
      ensures !(item.Some? && fault) ==>
                && r == Ok(None)
                && db.tables == (if item.Some? then DelAccount(old(db.tables), cfg.fk, item.value.uuid)
                                 else old(db.tables))
                && nxcache.entries == Insert(old(nxcache.entries), NXCACHE_SIZE, id, Deadline(cfg, now))
    {
      fault := false;
      if item.Some? {
        var deleted;
        deleted, fault := DeleteCacheUsertoken(item.value.uuid);
        if deleted == Err { return Err, fault; }
      }
      nxcache.Put(id, Deadline(cfg, now));
      r := Ok(None);
    }

    method RefreshUsertoken(id: Id, item: Option<UserToken>, env: Env)
      returns (r: Result<Option<UserToken>>, ghost f: Faults)
      requires Ready()
      modifies this, db, nxcache
      ensures Ready() && !f.read
      ensures Outcome(View(), r, [UserGet(id)]) == RefreshUser(cfg, old(View()), id, item, env, f)
    {
      f := NO_FAULTS;
      match env.userReply {
        case Found(tok) =>
          var saved, fault := SetCacheUsertoken(tok, env.tReply, env.shellExists);
          f := f.(write := fault);
          r := if saved.Ok? then Ok(Some(saved.value)) else Err;
        case Failed(err) =>
          if err == Transport {
            mode := OfflineNextCheck(env.tReply + BACKOFF);
            r := Ok(item);
          } else if err.Http? && err.status == UNAUTHORIZED {
            mode := OfflineNextCheck(env.tReply - SECOND);
            r := Ok(item);
          } else if SaysMissing(err) {
            var gone, fault := ForgetUser(id, item, env.tReply);
            f := f.(write := fault);
            r := gone;
          } else {
            r := Ok(item);
          }
      }
    }

    method ForgetGroup(id: Id, item: Option<GroupToken>, now: int)
      returns (r: Result<Option<GroupToken>>, ghost fault: bool)
      requires Ready()
      modifies db, nxcache
      ensures Ready()
      ensures item.Some? && fault ==> r == Err && View() == old(View())
      ensures !(item.Some? && fault) ==>
                && r == Ok(None)
                && db.tables == (if item.Some? then DelGroup(old(db.tables), cfg.fk, item.value.uuid)
                                 else old(db.tables))
                && nxcache.entries == Insert(old(nxcache.entries), NXCACHE_SIZE, id, Deadline(cfg, now))
    {
      fault := false;
      if item.Some? {
        var deleted;
        deleted, fault := DeleteCacheGrouptoken(item.value.uuid);
        if deleted == Err { return Err, fault; }
      }
      nxcache.Put(id, Deadline(cfg, now));
      r := Ok(None);
    }

    method RefreshGrouptoken(id: Id, item: Option<GroupToken>, env: Env)
      returns (r: Result<Option<GroupToken>>, ghost f: Faults)
      requires Ready()
      modifies this, db, nxcache
      ensures Ready() && !f.read
      ensures Outcome(View(), r, [GroupGet(id)]) == RefreshGroup(cfg, old(View()), id, item, env, f)
    {
      f := NO_FAULTS;
      match env.groupReply {
        case Found(tok) =>
          var saved, fault := SetCacheGrouptoken(tok, env.tReply);
          f := f.(write := fault);
          r := if saved.Ok? then Ok(Some(tok)) else Err;
        case Failed(err) =>
          if err == Transport || err == Http(UNAUTHORIZED, Some(NotAuthenticated)) {
            mode := OfflineNextCheck(env.tReply + BACKOFF);
            r := Ok(item);
          } else if SaysMissing(err) {
            var gone, fault := ForgetGroup(id, item, env.tReply);
            f := f.(write := fault);
            r := gone;
          } else {
            r := Ok(item);
          }
      }
    }

    // Whether an expired item is to be refreshed now.
    method PassGate(expired: bool, env: Env) returns (go: bool, ghost sent: seq<Request>)
      modifies this
      ensures Outcome(View(), go, sent) == Gate(old(View()), expired, env)
    {
      go, sent := false, [];
      if expired {
        match mode {
          case Offline =>
          case Online => go := true;
          case OfflineNextCheck(time) =>
            if env.tGate >= time {
              go, sent := TestConnection(env);
            }
        }
      }
    }

    method GetUsertoken(id: Id, env: Env)
      returns (r: Result<Option<UserToken>>, ghost f: Faults, ghost sent: seq<Request>)
      requires Ready()
      modifies this, db, nxcache
      ensures Ready()
      ensures Outcome(View(), r, sent) == GetUser(cfg, old(View()), id, env, f)
    {
      var cached, fault := GetCachedUsertoken(id, env.tRead);
      f := NO_FAULTS.(read := fault);
      if cached == Err { return Err, f, []; }
      var (expired, item) := cached.value;
      var go;
      go, sent := PassGate(expired, env);
      if go {
        r, f := RefreshUsertoken(id, item, env);
        sent := sent + [UserGet(id)];
      } else {
        r := Ok(item);
      }
    }

    method GetGrouptoken(id: Id, env: Env)
      returns (r: Result<Option<GroupToken>>, ghost f: Faults, ghost sent: seq<Request>)
      requires Ready()
      modifies this, db, nxcache
      ensures Ready()
      ensures Outcome(View(), r, sent) == GetGroup(cfg, old(View()), id, env, f)
    {
      var cached, fault := GetCachedGrouptoken(id, env.tRead);
      f := NO_FAULTS.(read := fault);
      if cached == Err { return Err, f, []; }
      var (expired, item) := cached.value;
      var go;
      go, sent := PassGate(expired, env);
      if go {
        r, f := RefreshGrouptoken(id, item, env);
        sent := sent + [GroupGet(id)];
      } else {
        r := Ok(item);
      }
    }

    // Check the credential against the cached password of the item, if any.
    method CheckItem(item: Option<UserToken>, cred: string) returns (r: Result<Option<bool>>, ghost fault: bool)
      requires Ready()
      modifies db
      ensures Ready() && db.tables == old(db.tables)
      ensures r == CheckPassword(View(), item, cred, fault)
    {
      fault := false;
      match item {
        case None => r := Ok(None);
        case Some(tok) =>
          var ok;
          ok, fault := CheckCacheUserpassword(tok.uuid, cred);
          r := if ok.Ok? then Ok(Some(ok.value)) else Err;
      }
    }

    method AcceptCredential(tok: UserToken, cred: string, env: Env)
      returns (r: Result<Option<bool>>, ghost f: Faults)
      requires Ready()
      modifies db
      ensures Ready() && !f.read
      ensures (View(), r) == Accept(cfg, old(View()), tok, cred, env, f)
    {
      var saved, fault := SetCacheUsertoken(tok, env.tReply, env.shellExists);
      f := NO_FAULTS.(write := fault);
      if saved == Err { return Err, f; }
      var stored, pwFault := SetCacheUserpassword(saved.value.uuid, cred);
      f := f.(password := pwFault);
      r := if stored.Ok? then Ok(Some(true)) else Err;
    }

    method OnlineAccountAuthenticate(item: Option<UserToken>, name: string, cred: string, env: Env)
      returns (r: Result<Option<bool>>, ghost f: Faults)
      requires Ready()
      modifies this, db
      ensures Ready() && !f.read
      ensures Outcome(View(), r, [CredVerify(name, cred)]) == OnlineAuth(cfg, old(View()), item, name, cred, env, f)
    {
      f := NO_FAULTS;
      match env.credReply {
        case Found(Some(tok)) =>
          r, f := AcceptCredential(tok, cred, env);
        case Found(None) =>
          r := Ok(Some(false));
        case Failed(err) =>
          if err == Transport || (err.Http? && err.status == UNAUTHORIZED) {
            mode := OfflineNextCheck(if err == Transport then env.tReply + BACKOFF else env.tReply - SECOND);
            var checked, fault := CheckItem(item, cred);
            f := f.(write := fault);
            r := checked;
          } else if SaysMissing(err) {
            r := Ok(None);
          } else {
            r := Err;
          }
      }
    }

    method OfflineAccountAuthenticate(item: Option<UserToken>, cred: string)
      returns (r: Result<Option<bool>>, ghost f: Faults)
      requires Ready()
      modifies db
      ensures Ready() && !f.read && db.tables == old(db.tables)
      ensures r == OfflineAuth(View(), item, cred, f)
    {
      f := NO_FAULTS;
      if item.Some? && !item.value.valid {
        r := Ok(Some(false));
      } else {
        var checked, fault := CheckItem(item, cred);
        f := f.(write := fault);
        r := checked;
      }
    }

    method PamAccountAuthenticate(name: string, cred: string, env: Env)
      returns (r: Result<Option<bool>>, ghost f: Faults, ghost sent: seq<Request>)
      requires Ready()
      modifies this, db, nxcache
      ensures Ready()
      ensures Outcome(View(), r, sent) == Authenticate(cfg, old(View()), name, cred, env, f)
    {
      sent := [];
      var state := mode;
      var cached, fault := GetCachedUsertoken(Name(name), env.tRead);
      f := NO_FAULTS.(read := fault);
      if cached == Err { return Err, f, sent; }
      var item := cached.value.1;
      var up := state == Online;
      if state.OfflineNextCheck? {
        // Whatever the back-off says, an authentication probes.
        up, sent := TestConnection(env);
      }
      if up {
        r, f := OnlineAccountAuthenticate(item, name, cred, env);
        sent := sent + [CredVerify(name, cred)];
      } else {
        r, f := OfflineAccountAuthenticate(item, cred);
      }
    }
  }
}
