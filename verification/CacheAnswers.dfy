/** What every operation of the cache layer answers, which state it leaves and when it asks
    the server, read off the tables, the negative cache and the server's replies. */
module CacheAnswers {
  import opened Prelude
  import opened KeyedTable
  import opened CacheTables
  import opened Memberships
  import opened NegativeCache
  import opened CacheSpec
  import opened CacheEffects

  // ------------------------------------------------------------------ reference notions

  // Nothing cached is still good: the row found has run out, or there is neither a row nor
  // a memory of "missing" that has not run out.
  ghost predicate Stale<T>(t: Table<T>, nx: seq<Entry>, id: Id, now: int) {
    match Find(t, id)
    case Err => false
    case Ok(Some((_, expiry))) => now >= expiry * 1_000_000_000
    case Ok(None) => Lookup(nx, id).Some? ==> now >= Lookup(nx, id).value
  }

  // The server is there for a lookup: Online, or past the back-off with a good probe.
  predicate LookupGoes(m: CacheState, env: Env) {
    m == Online || (m.OfflineNextCheck? && env.tGate >= m.time && env.probeOk)
  }

  // ... and for an authentication, which does not wait for the back-off.
  predicate AuthGoes(m: CacheState, env: Env) {
    m == Online || (m.OfflineNextCheck? && env.probeOk)
  }

  // The answers that mean "no such entry".
  predicate NoEntry(err: ClientError) {
    || err == Http(400, Some(NoMatchingEntries))
    || err == Http(404, Some(NoMatchingEntries))
    || err == Http(400, Some(InvalidAccountState))
  }

  predicate Denied(err: ClientError) {
    err.Http? && err.status == 401
  }

  // The reply with its shell, or the default one if that is not there.
  function Shelled(cfg: Config, raw: UserToken, shellExists: bool): UserToken {
    raw.(shell := if raw.shell != None && shellExists then raw.shell else Some(cfg.defaultShell))
  }

  // A token received at this time can be stored.
  ghost predicate CanStore(cfg: Config, groups: seq<GroupToken>, now: int) {
    var t := now + cfg.timeoutSeconds * 1_000_000_000;
    t >= 0 && t / 1_000_000_000 <= 0x7fff_ffff_ffff_ffff && (cfg.fk ==> Coherent(groups))
  }

  function TokenOf<T>(found: Option<(T, int)>): Option<T> {
    match found
    case None => None
    case Some((tok, _)) => Some(tok)
  }

  // ------------------------------------------------------------------------ user lookups

  lemma {:induction false} UserAsksIff(st: State, e: Event, id: Id)
    requires e.op == LookupUser(id)
    ensures Asks(st, e) <==>
            && !e.faults.read && Stale(st.tables.accounts, st.nx, id, e.env.tRead)
            && LookupGoes(st.mode, e.env)
  {
  }

  // Without asking: the token found, none, or an error if storage failed or two rows
  // answer; the tables stay.
  lemma {:induction false} UserUnasked(cfg: Config, st: State, e: Event, id: Id)
    requires e.op == LookupUser(id) && !Asks(st, e)
    ensures var found := Find(st.tables.accounts, id);
            GetUser(cfg, st, id, e.env, e.faults).answer ==
            if e.faults.read || found == Err then Err else Ok(TokenOf(found.value))
    ensures Next(cfg, st, e).tables == st.tables
  {
    UserShape(cfg, st, id, e);
  }

  // The server sent a user: it is answered, with its shell, and cached; or it could not be
  // stored, and the tables stay.
  lemma {:induction false} UserFound(cfg: Config, st: State, e: Event, id: Id, raw: UserToken)
    requires e.op == LookupUser(id) && Asks(st, e) && e.env.userReply == Found(raw)
    ensures var answer, tok := GetUser(cfg, st, id, e.env, e.faults).answer, Shelled(cfg, raw, e.env.shellExists);
            if !e.faults.write && CanStore(cfg, raw.groups, e.env.tReply)
            then answer == Ok(Some(tok)) && Holds(Next(cfg, st, e).tables, tok)
            else answer == Err && Next(cfg, st, e).tables == st.tables
  {
    UserShape(cfg, st, id, e);
    SaveCommitsIff(cfg, st.tables, WithShell(cfg, raw, e.env.shellExists), e.env.tReply, e.faults.write);
  }

  // The server said "no such entry": None is answered, the row found is gone and the answer
  // remembered; or that row could not be deleted.
  lemma {:induction false} UserMissing(cfg: Config, st: State, e: Event, id: Id, err: ClientError)
    requires e.op == LookupUser(id) && Asks(st, e) && e.env.userReply == Failed(err) && NoEntry(err)
    requires NegativeCache.Valid(st.nx, NXCACHE_SIZE)
    ensures var answer, st' := GetUser(cfg, st, id, e.env, e.faults).answer, Next(cfg, st, e);
            match TokenOf(Find(st.tables.accounts, id).value)
            case Some(tok) =>
              if e.faults.write then answer == Err && st'.tables == st.tables
              else answer == Ok(None) && st'.tables.accounts == st.tables.accounts - {tok.uuid}
                   && st'.tables.groups == st.tables.groups
            case None => answer == Ok(None) && st'.tables == st.tables
    ensures GetUser(cfg, st, id, e.env, e.faults).answer == Ok(None) ==>
              Lookup(Next(cfg, st, e).nx, id) == Some(e.env.tReply + cfg.timeoutSeconds * 1_000_000_000)
  {
    UserShape(cfg, st, id, e);
    TouchValid(st.nx, NXCACHE_SIZE, id);
    InsertValid(ReadNx(st, e), NXCACHE_SIZE, id, Deadline(cfg, e.env.tReply));
  }

  // Any other failure: what was found is answered, and the tables stay.
  lemma {:induction false} UserFailed(cfg: Config, st: State, e: Event, id: Id, err: ClientError)
    requires e.op == LookupUser(id) && Asks(st, e) && e.env.userReply == Failed(err) && !NoEntry(err)
    ensures GetUser(cfg, st, id, e.env, e.faults).answer == Ok(TokenOf(Find(st.tables.accounts, id).value))
    ensures Next(cfg, st, e).tables == st.tables
  {
    UserShape(cfg, st, id, e);
  }

  // ----------------------------------------------------------------------- group lookups

  lemma {:induction false} GroupAsksIff(st: State, e: Event, id: Id)
    requires e.op == LookupGroup(id)
    ensures Asks(st, e) <==>
            && !e.faults.read && Stale(st.tables.groups, st.nx, id, e.env.tRead)
            && LookupGoes(st.mode, e.env)
  {
  }

  lemma {:induction false} GroupUnasked(cfg: Config, st: State, e: Event, id: Id)
    requires e.op == LookupGroup(id) && !Asks(st, e)
    ensures var found := Find(st.tables.groups, id);
            GetGroup(cfg, st, id, e.env, e.faults).answer ==
            if e.faults.read || found == Err then Err else Ok(TokenOf(found.value))
    ensures Next(cfg, st, e).tables == st.tables
  {
    GroupShape(cfg, st, id, e);
  }

  ghost predicate HoldsGroup(t: Tables, tok: GroupToken) {
    tok.uuid in t.groups && t.groups[tok.uuid].token == tok
  }

  lemma {:induction false} GroupFound(cfg: Config, st: State, e: Event, id: Id, tok: GroupToken)
    requires e.op == LookupGroup(id) && Asks(st, e) && e.env.groupReply == Found(tok)
    ensures var answer := GetGroup(cfg, st, id, e.env, e.faults).answer;
            if !e.faults.write && CanStore(cfg, [], e.env.tReply)
            then answer == Ok(Some(tok)) && HoldsGroup(Next(cfg, st, e).tables, tok)
            else answer == Err && Next(cfg, st, e).tables == st.tables
  {
    GroupShape(cfg, st, id, e);
  }

  lemma {:induction false} GroupMissing(cfg: Config, st: State, e: Event, id: Id, err: ClientError)
    requires e.op == LookupGroup(id) && Asks(st, e) && e.env.groupReply == Failed(err) && NoEntry(err)
    requires NegativeCache.Valid(st.nx, NXCACHE_SIZE)
    ensures var answer, st' := GetGroup(cfg, st, id, e.env, e.faults).answer, Next(cfg, st, e);
            match TokenOf(Find(st.tables.groups, id).value)
            case Some(tok) =>
              if e.faults.write then answer == Err && st'.tables == st.tables
              else answer == Ok(None) && st'.tables.groups == st.tables.groups - {tok.uuid}
                   && st'.tables.accounts == st.tables.accounts
            case None => answer == Ok(None) && st'.tables == st.tables
    ensures GetGroup(cfg, st, id, e.env, e.faults).answer == Ok(None) ==>
              Lookup(Next(cfg, st, e).nx, id) == Some(e.env.tReply + cfg.timeoutSeconds * 1_000_000_000)
  {
    GroupShape(cfg, st, id, e);
    TouchValid(st.nx, NXCACHE_SIZE, id);
    InsertValid(ReadNx(st, e), NXCACHE_SIZE, id, Deadline(cfg, e.env.tReply));
  }

  lemma {:induction false} GroupFailed(cfg: Config, st: State, e: Event, id: Id, err: ClientError)
    requires e.op == LookupGroup(id) && Asks(st, e) && e.env.groupReply == Failed(err) && !NoEntry(err)
    ensures GetGroup(cfg, st, id, e.env, e.faults).answer == Ok(TokenOf(Find(st.tables.groups, id).value))
    ensures Next(cfg, st, e).tables == st.tables
  {
    GroupShape(cfg, st, id, e);
  }

  // ---------------------------------------------------------------------- authentication

  // What the server made of the credential, if it was asked.
  datatype Verdict = Accepted(tok: UserToken) | Wrong | Unknown | Unclear | NoVerdict

  ghost function VerdictOf(st: State, e: Event): Verdict {
    if !AuthGoes(st.mode, e.env) then NoVerdict
    else match e.env.credReply
      case Found(Some(tok)) => Accepted(tok)
      case Found(None) => Wrong
      case Failed(err) =>
        if err == Transport || Denied(err) then NoVerdict
        else if NoEntry(err) then Unknown
        else Unclear
  }

  // The cached row decides: the one that answers to the name, if its password can be read.
  ghost predicate RowSays(st: State, tok: UserToken, cred: string) {
    tok.uuid in st.tables.accounts && st.tables.accounts[tok.uuid].password == Some(cred)
  }

  lemma {:induction false} AuthAsksIff(st: State, e: Event, name: string, cred: string)
    requires e.op == Auth(name, cred)
    ensures Asks(st, e) <==>
            !e.faults.read && Find(st.tables.accounts, Name(name)).Ok? && AuthGoes(st.mode, e.env)
  {
  }

  // An authentication that cannot read its row answers an error.
  lemma {:induction false} AuthUnread(cfg: Config, st: State, e: Event, name: string, cred: string)
    requires e.op == Auth(name, cred)
    requires e.faults.read || Find(st.tables.accounts, Name(name)) == Err
    ensures Authenticate(cfg, st, name, cred, e.env, e.faults).answer == Err && Next(cfg, st, e) == st
  {
  }

  // With a verdict, the verdict is the answer, once an accepted credential is stored.
  lemma {:induction false} AuthDecided(cfg: Config, st: State, e: Event, name: string, cred: string)
    requires e.op == Auth(name, cred) && !e.faults.read && Find(st.tables.accounts, Name(name)).Ok?
    requires VerdictOf(st, e) != NoVerdict
    ensures Authenticate(cfg, st, name, cred, e.env, e.faults).answer ==
            match VerdictOf(st, e)
            case Accepted(tok) =>
              if CanStore(cfg, tok.groups, e.env.tReply) && !e.faults.write && !e.faults.password
              then Ok(Some(true)) else Err
            case Wrong => Ok(Some(false))
            case Unknown => Ok(None)
            case _ => Err
    ensures !VerdictOf(st, e).Accepted? ==> Next(cfg, st, e).tables == st.tables
  {
    AuthShape(cfg, st, name, cred, e);
    match VerdictOf(st, e)
    case Accepted(tok) =>
      SaveCommitsIff(cfg, st.tables, WithShell(cfg, tok, e.env.shellExists), e.env.tReply, e.faults.write);
    case _ =>
  }

  // Without one the cached row is: no row, no answer; a row that is not valid is refused
  // unless the server was asked; otherwise its password decides.
  lemma {:induction false} AuthUndecided(cfg: Config, st: State, e: Event, name: string, cred: string)
    requires e.op == Auth(name, cred) && !e.faults.read && Find(st.tables.accounts, Name(name)).Ok?
    requires VerdictOf(st, e) == NoVerdict
    ensures Authenticate(cfg, st, name, cred, e.env, e.faults).answer ==
            match TokenOf(Find(st.tables.accounts, Name(name)).value)
            case None => Ok(None)
            case Some(tok) =>
              if !tok.valid && !AuthGoes(st.mode, e.env) then Ok(Some(false))
              else if e.faults.write then Err
              else Ok(Some(RowSays(st, tok, cred)))
    ensures Next(cfg, st, e).tables == st.tables
  {
    AuthShape(cfg, st, name, cred, e);
  }

  // In one: when storage holds, true is answered if and only if the server accepted a
  // credential that could be stored, or there was no verdict and the row answering to the
  // name has that password and, if the server was not asked, is valid.
  lemma {:induction false} AuthTrueIff(cfg: Config, st: State, e: Event, name: string, cred: string)
    requires e.op == Auth(name, cred) && e.faults == Faults(false, false, false)
    ensures var found, v := Find(st.tables.accounts, Name(name)), VerdictOf(st, e);
            Authenticate(cfg, st, name, cred, e.env, e.faults).answer == Ok(Some(true)) <==>
            found.Ok? &&
            ((v.Accepted? && CanStore(cfg, v.tok.groups, e.env.tReply)) ||
             (v == NoVerdict && found.value.Some? && RowSays(st, found.value.value.0, cred)
              && (!AuthGoes(st.mode, e.env) ==> found.value.value.0.valid)))
  {
    var found, v := Find(st.tables.accounts, Name(name)), VerdictOf(st, e);
    if found == Err {
      AuthUnread(cfg, st, e, name, cred);
    } else if v == NoVerdict {
      AuthUndecided(cfg, st, e, name, cred);
    } else {
      AuthDecided(cfg, st, e, name, cred);
    }
  }

  lemma {:induction false} AuthFalseIff(cfg: Config, st: State, e: Event, name: string, cred: string)
    requires e.op == Auth(name, cred) && e.faults == Faults(false, false, false)
    ensures var found, v := Find(st.tables.accounts, Name(name)), VerdictOf(st, e);
            Authenticate(cfg, st, name, cred, e.env, e.faults).answer == Ok(Some(false)) <==>
            found.Ok? &&
            (v == Wrong ||
             (v == NoVerdict && found.value.Some?
              && (!RowSays(st, found.value.value.0, cred)
                  || (!AuthGoes(st.mode, e.env) && !found.value.value.0.valid))))
  {
    var found, v := Find(st.tables.accounts, Name(name)), VerdictOf(st, e);
    if found == Err {
      AuthUnread(cfg, st, e, name, cred);
    } else if v == NoVerdict {
      AuthUndecided(cfg, st, e, name, cred);
    } else {
      AuthDecided(cfg, st, e, name, cred);
    }
  }

  lemma {:induction false} AuthNoneIff(cfg: Config, st: State, e: Event, name: string, cred: string)
    requires e.op == Auth(name, cred) && e.faults == Faults(false, false, false)
    ensures var found, v := Find(st.tables.accounts, Name(name)), VerdictOf(st, e);
            Authenticate(cfg, st, name, cred, e.env, e.faults).answer == Ok(None) <==>
            found.Ok? && (v == Unknown || (v == NoVerdict && found.value == None))
  {
    var found, v := Find(st.tables.accounts, Name(name)), VerdictOf(st, e);
    if found == Err {
      AuthUnread(cfg, st, e, name, cred);
    } else if v == NoVerdict {
      AuthUndecided(cfg, st, e, name, cred);
    } else {
      AuthDecided(cfg, st, e, name, cred);
    }
  }

  // ------------------------------------------------------------------------ other events

  // After a clear that storage carries out nothing is found any more.
  lemma {:induction false} ClearEmpties(cfg: Config, st: State, e: Event, id: Id)
    requires e.op == ClearCache
    ensures Next(cfg, st, e).nx == []
    ensures var t := Next(cfg, st, e).tables;
            if e.faults.write then t == st.tables
            else Find(t.accounts, id) == Ok(None) && Find(t.groups, id) == Ok(None)
  {
  }

  // After an invalidation that storage carries out everything has run out, and nothing
  // else about the rows has changed.
  lemma {:induction false} InvalidateExpires(cfg: Config, st: State, e: Event, u: string)
    requires e.op == Invalidate
    ensures Next(cfg, st, e).nx == []
    ensures var t, t' := st.tables, Next(cfg, st, e).tables;
            if e.faults.write then t' == t
            else
              && t'.members == t.members && t'.accounts.Keys == t.accounts.Keys && t'.groups.Keys == t.groups.Keys
              && (u in t.accounts ==> t'.accounts[u] == t.accounts[u].(expiry := 0))
              && (u in t.groups ==> t'.groups[u] == t.groups[u].(expiry := 0))
  {
  }

  // The mode after an event.
  ghost function ModeAfter(st: State, e: Event): CacheState {
    var failedProbe := OfflineNextCheck(e.env.tProbe + 15_000_000_000);
    var backOff := OfflineNextCheck(e.env.tReply + 15_000_000_000);
    var reauth := OfflineNextCheck(e.env.tReply - 1_000_000_000);
    match e.op
    case LookupUser(id) =>
      if e.faults.read || !Stale(st.tables.accounts, st.nx, id, e.env.tRead) then st.mode
      else if LookupGoes(st.mode, e.env) then
        if e.env.userReply == Failed(Transport) then backOff
        else if e.env.userReply.Failed? && Denied(e.env.userReply.error) then reauth
        else Online
      else if st.mode.OfflineNextCheck? && e.env.tGate >= st.mode.time then failedProbe
      else st.mode
    case LookupGroup(id) =>
      if e.faults.read || !Stale(st.tables.groups, st.nx, id, e.env.tRead) then st.mode
      else if LookupGoes(st.mode, e.env) then
        if e.env.groupReply in {Failed(Transport), Failed(Http(401, Some(NotAuthenticated)))} then backOff
        else Online
      else if st.mode.OfflineNextCheck? && e.env.tGate >= st.mode.time then failedProbe
      else st.mode
    case Auth(name, _) =>
      if e.faults.read || Find(st.tables.accounts, Name(name)) == Err then st.mode
      else if AuthGoes(st.mode, e.env) then
        if e.env.credReply == Failed(Transport) then backOff
        else if e.env.credReply.Failed? && Denied(e.env.credReply.error) then reauth
        else Online
      else if st.mode.OfflineNextCheck? then failedProbe
      else st.mode
    case Status =>
      if !st.mode.OfflineNextCheck? then st.mode else if e.env.probeOk then Online else failedProbe
    case AttemptOnline => OfflineNextCheck(e.env.tRead)
    case Restart => OfflineNextCheck(e.env.tRead)
    case MarkOffline => Offline
    case _ => st.mode
  }

  lemma {:induction false} UserMode(cfg: Config, st: State, e: Event, id: Id)
    requires e.op == LookupUser(id)
    ensures Next(cfg, st, e).mode == ModeAfter(st, e)
  {
  }

  lemma {:induction false} GroupMode(cfg: Config, st: State, e: Event, id: Id)
    requires e.op == LookupGroup(id)
    ensures Next(cfg, st, e).mode == ModeAfter(st, e)
  {
  }

  lemma {:induction false} AuthMode(cfg: Config, st: State, e: Event, name: string, cred: string)
    requires e.op == Auth(name, cred)
    ensures Next(cfg, st, e).mode == ModeAfter(st, e)
  {
  }

  lemma {:induction false} ModeFollows(cfg: Config, st: State, e: Event)
    ensures Next(cfg, st, e).mode == ModeAfter(st, e)
  {
    match e.op
    case LookupUser(id) => UserMode(cfg, st, e, id);
    case LookupGroup(id) => GroupMode(cfg, st, e, id);
    case Auth(name, cred) => AuthMode(cfg, st, e, name, cred);
    case _ =>
  }

  // ---------------------------------------------------------------------------- requests

  // The event probes the server first.
  ghost predicate Probes(st: State, e: Event) {
    st.mode.OfflineNextCheck? &&
    match e.op
    case LookupUser(id) =>
      !e.faults.read && Stale(st.tables.accounts, st.nx, id, e.env.tRead) && e.env.tGate >= st.mode.time
    case LookupGroup(id) =>
      !e.faults.read && Stale(st.tables.groups, st.nx, id, e.env.tRead) && e.env.tGate >= st.mode.time
    case Auth(name, _) => !e.faults.read && Find(st.tables.accounts, Name(name)).Ok?
    case Status => true
    case _ => false
  }

  // The requests of an event: a probe if it makes one, then its question if it asks.
  lemma {:induction false} UserSent(cfg: Config, st: State, e: Event, id: Id)
    requires e.op == LookupUser(id)
    ensures Sent(cfg, st, e) ==
            (if Probes(st, e) then [AuthAnonymous] else []) + if Asks(st, e) then [UserGet(id)] else []
  {
  }

  lemma {:induction false} GroupSent(cfg: Config, st: State, e: Event, id: Id)
    requires e.op == LookupGroup(id)
    ensures Sent(cfg, st, e) ==
            (if Probes(st, e) then [AuthAnonymous] else []) + if Asks(st, e) then [GroupGet(id)] else []
  {
  }

  lemma {:induction false} AuthSent(cfg: Config, st: State, e: Event, name: string, cred: string)
    requires e.op == Auth(name, cred)
    ensures Sent(cfg, st, e) ==
            (if Probes(st, e) then [AuthAnonymous] else []) + if Asks(st, e) then [CredVerify(name, cred)] else []
  {
  }

  lemma {:induction false} OtherSent(cfg: Config, st: State, e: Event)
    requires !e.op.LookupUser? && !e.op.LookupGroup? && !e.op.Auth?
    ensures Sent(cfg, st, e) == if Probes(st, e) then [AuthAnonymous] else []
  {
  }
}
