/** What each operation of the cache layer does to its state, answers, and sends to the
    server. The clock, the server's replies, shell checks and storage errors come in
    through `Env` and `Faults`; times are nanoseconds since the epoch, read at the points where the
    source reads its clock. */
module CacheSpec {
  import opened Prelude
  import opened KeyedTable
  import opened CacheTables
  import opened NegativeCache

  const SECOND: nat := 1_000_000_000
  const BACKOFF: nat := 15 * SECOND

  // The attribute shown as a user's name.
  datatype UidAttr = UidSpn | UidName

  datatype Config = Config(timeoutSeconds: nat, defaultShell: string, uidAttr: UidAttr, fk: bool)

  datatype CacheState = Online | Offline | OfflineNextCheck(time: int)

  datatype State = State(tables: Tables, mode: CacheState, nx: seq<Entry>)

  // The error values of the client library that the source tells apart.
  datatype OperationError =
    NotAuthenticated | SessionExpired | NoMatchingEntries | InvalidAccountState | OtherOperation
  datatype ClientError =
    | Transport
    | Http(status: nat, reason: Option<OperationError>)
    | OtherClient

  datatype Reply<+T> = Found(value: T) | Failed(error: ClientError)

  const UNAUTHORIZED: nat := 401
  const BAD_REQUEST: nat := 400
  const NOT_FOUND: nat := 404

  // The entry is gone, or is no longer a valid posix entry.
  predicate SaysMissing(e: ClientError) {
    e in {Http(BAD_REQUEST, Some(NoMatchingEntries)),
          Http(NOT_FOUND, Some(NoMatchingEntries)),
          Http(BAD_REQUEST, Some(InvalidAccountState))}
  }

  datatype Request =
    AuthAnonymous | UserGet(id: Id) | GroupGet(id: Id) | CredVerify(name: string, cred: string)

  // Clock readings in the order an operation may take them: for the expiry check, for
  // the back-off gate, after a failed probe, and on handling the reply.
  datatype Env = Env(
    tRead: int, tGate: int, tProbe: int, tReply: int,
    probeOk: bool,
    userReply: Reply<UserToken>,
    groupReply: Reply<GroupToken>,
    credReply: Reply<Option<UserToken>>,
    shellExists: bool)

  // Which transactions of an operation hit a storage error: its lookup, its first
  // further transaction, and the storing of a password.
  datatype Faults = Faults(read: bool, write: bool, password: bool)

  datatype Outcome<+A> = Outcome(st: State, answer: A, sent: seq<Request>)

  // ------------------------------------------------------------------- cache reads

  ghost function Cached<T>(t: Table<T>, nx: seq<Entry>, id: Id, now: int): Result<(bool, Option<T>)> {
    match Find(t, id)
    case Err => Err
    case Ok(Some((tok, expiry))) => Ok((now >= expiry * SECOND, Some(tok)))
    case Ok(None) =>
      match Lookup(nx, id)
      case Some(t) => Ok((now >= t, None))
      case None => Ok((true, None))
  }

  // Only a database miss consults, and so refreshes, the negative cache.
  ghost function NxAfterRead<T>(t: Table<T>, nx: seq<Entry>, id: Id): seq<Entry> {
    if Find(t, id) == Ok(None) then Touch(nx, id) else nx
  }

  // ------------------------------------------------------------------ cache writes

  function Deadline(cfg: Config, now: int): int {
    now + cfg.timeoutSeconds * SECOND
  }

  // A token's expiry in whole seconds, if the deadline is one the tables can hold.
  function ExpirySeconds(cfg: Config, now: int): Result<nat> {
    var t := Deadline(cfg, now);
    if t < 0 || t / SECOND > I64_MAX then Err else Ok(t / SECOND)
  }

  function WithShell(cfg: Config, tok: UserToken, exists_: bool): UserToken {
    if tok.shell.Some? && exists_ then tok else tok.(shell := Some(cfg.defaultShell))
  }

  // One transaction: the groups, then the account. None if it does not commit.
  function SaveUser(cfg: Config, t: Tables, tok: UserToken, now: int, fault: bool): Option<Tables> {
    match ExpirySeconds(cfg, now)
    case Err => None
    case Ok(e) =>
      var t' := PutGroups(t, cfg.fk, tok.groups, e);
      if fault || !Linkable(t', cfg.fk, tok.groups) then None
      else Some(PutAccount(t', cfg.fk, tok, e))
  }

  function SaveGroup(cfg: Config, t: Tables, tok: GroupToken, now: int, fault: bool): Option<Tables> {
    match ExpirySeconds(cfg, now)
    case Err => None
    case Ok(e) => if fault then None else Some(PutGroup(t, cfg.fk, tok, e))
  }

  // ------------------------------------------------------------------- the network

  function Probe(st: State, env: Env): Outcome<bool> {
    match st.mode
    case Offline => Outcome(st, false, [])
    case Online => Outcome(st, true, [])
    case OfflineNextCheck(_) =>
      if env.probeOk then Outcome(st.(mode := Online), true, [AuthAnonymous])
      else Outcome(st.(mode := OfflineNextCheck(env.tProbe + BACKOFF)), false, [AuthAnonymous])
  }

  function RefreshUser(cfg: Config, st: State, id: Id, item: Option<UserToken>, env: Env, f: Faults):
    Outcome<Result<Option<UserToken>>>
  {
    var sent := [UserGet(id)];
    match env.userReply
    case Found(tok) =>
      var tok' := WithShell(cfg, tok, env.shellExists);
      (match SaveUser(cfg, st.tables, tok', env.tReply, f.write)
       case Some(t) => Outcome(st.(tables := t), Ok(Some(tok')), sent)
       case None => Outcome(st, Err, sent))
    case Failed(e) =>
      if e == Transport then
        Outcome(st.(mode := OfflineNextCheck(env.tReply + BACKOFF)), Ok(item), sent)
      else if e.Http? && e.status == UNAUTHORIZED then
        Outcome(st.(mode := OfflineNextCheck(env.tReply - SECOND)), Ok(item), sent)
      else if SaysMissing(e) then
        if item.Some? && f.write then Outcome(st, Err, sent)
        else
          var t := if item.Some? then DelAccount(st.tables, cfg.fk, item.value.uuid) else st.tables;
          Outcome(st.(tables := t, nx := Insert(st.nx, NXCACHE_SIZE, id, Deadline(cfg, env.tReply))), Ok(None), sent)
      else Outcome(st, Ok(item), sent)
  }

  function RefreshGroup(cfg: Config, st: State, id: Id, item: Option<GroupToken>, env: Env, f: Faults):
    Outcome<Result<Option<GroupToken>>>
  {
    var sent := [GroupGet(id)];
    match env.groupReply
    case Found(tok) =>
      (match SaveGroup(cfg, st.tables, tok, env.tReply, f.write)
       case Some(t) => Outcome(st.(tables := t), Ok(Some(tok)), sent)
       case None => Outcome(st, Err, sent))
    case Failed(e) =>
      if e == Transport || e == Http(UNAUTHORIZED, Some(NotAuthenticated)) then
        Outcome(st.(mode := OfflineNextCheck(env.tReply + BACKOFF)), Ok(item), sent)
      else if SaysMissing(e) then
        if item.Some? && f.write then Outcome(st, Err, sent)
        else
          var t := if item.Some? then DelGroup(st.tables, cfg.fk, item.value.uuid) else st.tables;
          Outcome(st.(tables := t, nx := Insert(st.nx, NXCACHE_SIZE, id, Deadline(cfg, env.tReply))), Ok(None), sent)
      else Outcome(st, Ok(item), sent)
  }

  // Does a lookup that found its item expired go to the server, and after a probe?
  function Gate(st: State, expired: bool, env: Env): Outcome<bool> {
    if !expired then Outcome(st, false, [])
    else match st.mode
      case Offline => Outcome(st, false, [])
      case Online => Outcome(st, true, [])
      case OfflineNextCheck(time) =>
        if env.tGate >= time then Probe(st, env) else Outcome(st, false, [])
  }

  ghost function GetUser(cfg: Config, st: State, id: Id, env: Env, f: Faults): Outcome<Result<Option<UserToken>>> {
    var cached := Cached(st.tables.accounts, st.nx, id, env.tRead);
    if f.read || cached == Err then Outcome(st, Err, [])
    else
      var (expired, item) := cached.value;
      var gate := Gate(st.(nx := NxAfterRead(st.tables.accounts, st.nx, id)), expired, env);
      if !gate.answer then Outcome(gate.st, Ok(item), gate.sent)
      else
        var r := RefreshUser(cfg, gate.st, id, item, env, f);
        r.(sent := gate.sent + r.sent)
  }

  ghost function GetGroup(cfg: Config, st: State, id: Id, env: Env, f: Faults): Outcome<Result<Option<GroupToken>>> {
    var cached := Cached(st.tables.groups, st.nx, id, env.tRead);
    if f.read || cached == Err then Outcome(st, Err, [])
    else
      var (expired, item) := cached.value;
      var gate := Gate(st.(nx := NxAfterRead(st.tables.groups, st.nx, id)), expired, env);
      if !gate.answer then Outcome(gate.st, Ok(item), gate.sent)
      else
        var r := RefreshGroup(cfg, gate.st, id, item, env, f);
        r.(sent := gate.sent + r.sent)
  }

  // ---------------------------------------------------------------- authentication

  function CheckPassword(st: State, item: Option<UserToken>, cred: string, fault: bool): Result<Option<bool>> {
    match item
    case None => Ok(None)
    case Some(tok) => if fault then Err else Ok(Some(PasswordOk(st.tables, tok.uuid, cred)))
  }

  // The server accepted the credential: store the token, then the password.
  function Accept(cfg: Config, st: State, tok: UserToken, cred: string, env: Env, f: Faults):
    (State, Result<Option<bool>>)
  {
    match SaveUser(cfg, st.tables, WithShell(cfg, tok, env.shellExists), env.tReply, f.write)
    case None => (st, Err)
    case Some(t) =>
      if f.password then (st.(tables := t), Err)
      else (st.(tables := PutPassword(t, tok.uuid, cred)), Ok(Some(true)))
  }

  function OnlineAuth(cfg: Config, st: State, item: Option<UserToken>, name: string, cred: string, env: Env, f: Faults):
    Outcome<Result<Option<bool>>>
  {
    var sent := [CredVerify(name, cred)];
    match env.credReply
    case Found(Some(tok)) =>
      var (st', answer) := Accept(cfg, st, tok, cred, env, f);
      Outcome(st', answer, sent)
    case Found(None) => Outcome(st, Ok(Some(false)), sent)
    case Failed(e) =>
      if e == Transport then
        Outcome(st.(mode := OfflineNextCheck(env.tReply + BACKOFF)), CheckPassword(st, item, cred, f.write), sent)
      else if e.Http? && e.status == UNAUTHORIZED then
        Outcome(st.(mode := OfflineNextCheck(env.tReply - SECOND)), CheckPassword(st, item, cred, f.write), sent)
      else if SaysMissing(e) then Outcome(st, Ok(None), sent)
      else Outcome(st, Err, sent)
  }

  function OfflineAuth(st: State, item: Option<UserToken>, cred: string, f: Faults): Result<Option<bool>> {
    if item.Some? && !item.value.valid then Ok(Some(false))
    else CheckPassword(st, item, cred, f.write)
  }

  ghost function Authenticate(cfg: Config, st: State, name: string, cred: string, env: Env, f: Faults):
    Outcome<Result<Option<bool>>>
  {
    var id := Name(name);
    var cached := Cached(st.tables.accounts, st.nx, id, env.tRead);
    if f.read || cached == Err then Outcome(st, Err, [])
    else
      var item := cached.value.1;
      var probe := Probe(st.(nx := NxAfterRead(st.tables.accounts, st.nx, id)), env);
      if probe.answer then
        var r := OnlineAuth(cfg, probe.st, item, name, cred, env, f);
        r.(sent := probe.sent + r.sent)
      else Outcome(probe.st, OfflineAuth(probe.st, item, cred, f), probe.sent)
  }

  // ---------------------------------------------------------------------- the steps

  datatype Op =
    | LookupUser(id: Id)
    | LookupGroup(id: Id)
    | Auth(name: string, cred: string)
    | Status
    | AttemptOnline
    | MarkOffline
    | ClearCache
    | Invalidate
    | Restart

  datatype Event = Event(op: Op, env: Env, faults: Faults)

  ghost function Next(cfg: Config, st: State, e: Event): State {
    match e.op
    case LookupUser(id) => GetUser(cfg, st, id, e.env, e.faults).st
    case LookupGroup(id) => GetGroup(cfg, st, id, e.env, e.faults).st
    case Auth(name, cred) => Authenticate(cfg, st, name, cred, e.env, e.faults).st
    case Status => Probe(st, e.env).st
    case AttemptOnline => st.(mode := OfflineNextCheck(e.env.tRead))
    case MarkOffline => st.(mode := Offline)
    case ClearCache => State(if e.faults.write then st.tables else ClearTables(st.tables, cfg.fk), st.mode, [])
    case Invalidate => State(if e.faults.write then st.tables else InvalidateTables(st.tables), st.mode, [])
    case Restart => State(st.tables, OfflineNextCheck(e.env.tRead), [])
  }

  ghost function Sent(cfg: Config, st: State, e: Event): seq<Request> {
    match e.op
    case LookupUser(id) => GetUser(cfg, st, id, e.env, e.faults).sent
    case LookupGroup(id) => GetGroup(cfg, st, id, e.env, e.faults).sent
    case Auth(name, cred) => Authenticate(cfg, st, name, cred, e.env, e.faults).sent
    case Status => Probe(st, e.env).sent
    case _ => []
  }
}
