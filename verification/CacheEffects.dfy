/** One step of the cache layer, reduced to its effect on the tables, so that whole
    runs can be argued about effect by effect. */
module CacheEffects {
  import opened Prelude
  import opened KeyedTable
  import opened CacheTables
  import opened Memberships
  import opened NegativeCache
  import opened CacheSpec

  datatype Effect =
    | Nothing
    | StoresUser(tok: UserToken, at: int)
    | AcceptsCred(tok: UserToken, at: int, cred: string)
    | StoresGroup(group: GroupToken, at: int)
    | DropsUser(uuid: string)
    | DropsGroup(uuid: string)
    | Clears
    | Expires
  {
    // The effect writes a user token.
    predicate Saves() { StoresUser? || AcceptsCred? }
  }

  // The operation gets as far as asking the server about an entry or a credential.
  ghost predicate Asks(st: State, e: Event) {
    !e.faults.read &&
    match e.op
    case LookupUser(id) =>
      var c := Cached(st.tables.accounts, st.nx, id, e.env.tRead);
      c.Ok? && Gate(st, c.value.0, e.env).answer
    case LookupGroup(id) =>
      var c := Cached(st.tables.groups, st.nx, id, e.env.tRead);
      c.Ok? && Gate(st, c.value.0, e.env).answer
    case Auth(name, cred) =>
      Cached(st.tables.accounts, st.nx, Name(name), e.env.tRead).Ok? && Probe(st, e.env).answer
    case _ => false
  }

  function Question(op: Op): Request {
    match op
    case LookupUser(id) => UserGet(id)
    case LookupGroup(id) => GroupGet(id)
    case Auth(name, cred) => CredVerify(name, cred)
    case _ => AuthAnonymous
  }

  // The gate looks at neither the tables nor the negative cache.
  lemma {:induction false} GateFrame(st: State, nx: seq<Entry>, expired: bool, env: Env)
    ensures var g, h := Gate(st, expired, env), Gate(st.(nx := nx), expired, env);
            && h == Outcome(g.st.(nx := nx), g.answer, g.sent)
            && g.st.tables == st.tables && g.st.nx == st.nx
            && (g.sent == [] || g.sent == [AuthAnonymous])
    ensures var g, h := Probe(st, env), Probe(st.(nx := nx), env);
            && h == Outcome(g.st.(nx := nx), g.answer, g.sent)
            && g.st.tables == st.tables && g.st.nx == st.nx
            && (g.sent == [] || g.sent == [AuthAnonymous])
  {
  }

  // A lookup or authentication in two halves: what it does without asking, and the
  // state from which it asks.
  ghost function ReadNx(st: State, e: Event): seq<Entry> {
    if e.faults.read then st.nx
    else match e.op
      case LookupUser(id) => NxAfterRead(st.tables.accounts, st.nx, id)
      case LookupGroup(id) => NxAfterRead(st.tables.groups, st.nx, id)
      case Auth(name, _) => NxAfterRead(st.tables.accounts, st.nx, Name(name))
      case _ => st.nx
  }

  lemma {:induction false} UserShape(cfg: Config, st: State, id: Id, e: Event)
    requires e.op == LookupUser(id)
    ensures var out := GetUser(cfg, st, id, e.env, e.faults);
            var c := Cached(st.tables.accounts, st.nx, id, e.env.tRead);
            if Asks(st, e) then
              var g := Gate(st, c.value.0, e.env);
              var mid := RefreshUser(cfg, g.st.(nx := ReadNx(st, e)), id, c.value.1, e.env, e.faults);
              out == mid.(sent := g.sent + [UserGet(id)]) && g.st.tables == st.tables
              && (g.sent == [] || g.sent == [AuthAnonymous])
            else
              out.st.tables == st.tables && out.st.nx == ReadNx(st, e)
              && (out.sent == [] || out.sent == [AuthAnonymous])
  {
    var c := Cached(st.tables.accounts, st.nx, id, e.env.tRead);
    if c.Ok? { GateFrame(st, ReadNx(st, e), c.value.0, e.env); }
  }

  lemma {:induction false} GroupShape(cfg: Config, st: State, id: Id, e: Event)
    requires e.op == LookupGroup(id)
    ensures var out := GetGroup(cfg, st, id, e.env, e.faults);
            var c := Cached(st.tables.groups, st.nx, id, e.env.tRead);
            if Asks(st, e) then
              var g := Gate(st, c.value.0, e.env);
              var mid := RefreshGroup(cfg, g.st.(nx := ReadNx(st, e)), id, c.value.1, e.env, e.faults);
              out == mid.(sent := g.sent + [GroupGet(id)]) && g.st.tables == st.tables
              && (g.sent == [] || g.sent == [AuthAnonymous])
            else
              out.st.tables == st.tables && out.st.nx == ReadNx(st, e)
              && (out.sent == [] || out.sent == [AuthAnonymous])
  {
    var c := Cached(st.tables.groups, st.nx, id, e.env.tRead);
    if c.Ok? { GateFrame(st, ReadNx(st, e), c.value.0, e.env); }
  }

  lemma {:induction false} AuthShape(cfg: Config, st: State, name: string, cred: string, e: Event)
    requires e.op == Auth(name, cred)
    ensures var out := Authenticate(cfg, st, name, cred, e.env, e.faults);
            var c := Cached(st.tables.accounts, st.nx, Name(name), e.env.tRead);
            var g := Probe(st, e.env);
            if Asks(st, e) then
              var mid := OnlineAuth(cfg, g.st.(nx := ReadNx(st, e)), c.value.1, name, cred, e.env, e.faults);
              out == mid.(sent := g.sent + [CredVerify(name, cred)]) && g.st.tables == st.tables
              && (g.sent == [] || g.sent == [AuthAnonymous])
            else
              out.st.tables == st.tables && out.st.nx == ReadNx(st, e)
              && (out.sent == [] || out.sent == [AuthAnonymous])
              && (out.answer.Ok? ==> c.Ok? && out.answer == OfflineAuth(st, c.value.1, cred, e.faults))
  {
    GateFrame(st, ReadNx(st, e), true, e.env);
  }

  // Asking is visible as the last request sent; an operation that does not ask sends
  // at most a probe.
  lemma {:induction false} AsksIsSent(cfg: Config, st: State, e: Event)
    ensures var sent := Sent(cfg, st, e);
            if Asks(st, e) then sent == [Question(e.op)] || sent == [AuthAnonymous, Question(e.op)]
            else sent == [] || sent == [AuthAnonymous]
  {
    match e.op
    case LookupUser(id) => UserShape(cfg, st, id, e);
    case LookupGroup(id) => GroupShape(cfg, st, id, e);
    case Auth(name, cred) => AuthShape(cfg, st, name, cred, e);
    case _ =>
  }

  ghost function ItemUser(st: State, id: Id, now: int): Option<UserToken> {
    var c := Cached(st.tables.accounts, st.nx, id, now);
    if c.Ok? then c.value.1 else None
  }

  ghost function ItemGroup(st: State, id: Id, now: int): Option<GroupToken> {
    var c := Cached(st.tables.groups, st.nx, id, now);
    if c.Ok? then c.value.1 else None
  }

  // The user token in the server's reply, if this event got one.
  ghost function RawUser(st: State, e: Event): Option<UserToken> {
    if !Asks(st, e) then None
    else if e.op.LookupUser? && e.env.userReply.Found? then Some(e.env.userReply.value)
    else if e.op.Auth? && e.env.credReply.Found? then e.env.credReply.value
    else None
  }

  // The server said that the entry looked up does not exist.
  ghost predicate ToldMissing(st: State, e: Event) {
    Asks(st, e) &&
    ((e.op.LookupUser? && e.env.userReply.Failed? && SaysMissing(e.env.userReply.error)) ||
     (e.op.LookupGroup? && e.env.groupReply.Failed? && SaysMissing(e.env.groupReply.error)))
  }

  ghost function EffectOf(cfg: Config, st: State, e: Event): Effect {
    match e.op
    case LookupUser(id) =>
      if !Asks(st, e) then Nothing
      else (match e.env.userReply
        case Found(raw) =>
          var tok := WithShell(cfg, raw, e.env.shellExists);
          if SaveUser(cfg, st.tables, tok, e.env.tReply, e.faults.write).Some?
          then StoresUser(tok, e.env.tReply) else Nothing
        case Failed(_) =>
          var item := ItemUser(st, id, e.env.tRead);
          if ToldMissing(st, e) && item.Some? && !e.faults.write then DropsUser(item.value.uuid) else Nothing)
    case LookupGroup(id) =>
      if !Asks(st, e) then Nothing
      else (match e.env.groupReply
        case Found(tok) =>
          if SaveGroup(cfg, st.tables, tok, e.env.tReply, e.faults.write).Some?
          then StoresGroup(tok, e.env.tReply) else Nothing
        case Failed(_) =>
          var item := ItemGroup(st, id, e.env.tRead);
          if ToldMissing(st, e) && item.Some? && !e.faults.write then DropsGroup(item.value.uuid) else Nothing)
    case Auth(name, cred) =>
      (match RawUser(st, e)
       case None => Nothing
       case Some(raw) =>
         var tok := WithShell(cfg, raw, e.env.shellExists);
         if SaveUser(cfg, st.tables, tok, e.env.tReply, e.faults.write) == None then Nothing
         else if e.faults.password then StoresUser(tok, e.env.tReply)
         else AcceptsCred(tok, e.env.tReply, cred))
    case ClearCache => if e.faults.write then Nothing else Clears
    case Invalidate => if e.faults.write then Nothing else Expires
    case _ => Nothing
  }

  // A stored user token is the server's reply up to shell defaulting.
  lemma {:induction false} SavedIsReply(cfg: Config, st: State, e: Event)
    requires EffectOf(cfg, st, e).Saves()
    ensures var eff, raw := EffectOf(cfg, st, e), RawUser(st, e);
            && Asks(st, e) && raw.Some? && eff.at == e.env.tReply
            && eff.tok == WithShell(cfg, raw.value, e.env.shellExists)
            && eff.tok == raw.value.(shell := eff.tok.shell)
            && eff.tok.shell == (if raw.value.shell != None && e.env.shellExists then raw.value.shell
                                 else Some(cfg.defaultShell))
    ensures Deadline(cfg, e.env.tReply) >= 0
  {
  }

  // Whole seconds, meaningful for the times at which something was stored.
  function StoredExpiry(cfg: Config, at: int): int {
    Deadline(cfg, at) / SECOND
  }

  function Save(cfg: Config, t: Tables, tok: UserToken, at: int): Tables {
    var e := StoredExpiry(cfg, at);
    PutAccount(PutGroups(t, cfg.fk, tok.groups, e), cfg.fk, tok, e)
  }

  function Effected(cfg: Config, t: Tables, eff: Effect): Tables {
    match eff
    case Nothing => t
    case StoresUser(tok, at) => Save(cfg, t, tok, at)
    case AcceptsCred(tok, at, cred) => PutPassword(Save(cfg, t, tok, at), tok.uuid, cred)
    case StoresGroup(g, at) => PutGroup(t, cfg.fk, g, StoredExpiry(cfg, at))
    case DropsUser(u) => DelAccount(t, cfg.fk, u)
    case DropsGroup(u) => DelGroup(t, cfg.fk, u)
    case Clears => ClearTables(t, cfg.fk)
    case Expires => InvalidateTables(t)
  }

  // What an effect says about when it may happen.
  ghost predicate Possible(cfg: Config, t: Tables, eff: Effect) {
    match eff
    case StoresUser(tok, at) =>
      Deadline(cfg, at) >= 0 && Linkable(PutGroups(t, cfg.fk, tok.groups, StoredExpiry(cfg, at)), cfg.fk, tok.groups)
    case AcceptsCred(tok, at, _) =>
      Deadline(cfg, at) >= 0 && Linkable(PutGroups(t, cfg.fk, tok.groups, StoredExpiry(cfg, at)), cfg.fk, tok.groups)
    case StoresGroup(_, at) => Deadline(cfg, at) >= 0
    case _ => true
  }

  lemma {:induction false} UserFollows(cfg: Config, st: State, id: Id, e: Event)
    requires e.op == LookupUser(id)
    ensures Next(cfg, st, e).tables == Effected(cfg, st.tables, EffectOf(cfg, st, e))
    ensures Possible(cfg, st.tables, EffectOf(cfg, st, e))
  {
    UserShape(cfg, st, id, e);
  }

  lemma {:induction false} GroupFollows(cfg: Config, st: State, id: Id, e: Event)
    requires e.op == LookupGroup(id)
    ensures Next(cfg, st, e).tables == Effected(cfg, st.tables, EffectOf(cfg, st, e))
    ensures Possible(cfg, st.tables, EffectOf(cfg, st, e))
  {
    GroupShape(cfg, st, id, e);
  }

  lemma {:induction false} AuthFollows(cfg: Config, st: State, name: string, cred: string, e: Event)
    requires e.op == Auth(name, cred)
    ensures Next(cfg, st, e).tables == Effected(cfg, st.tables, EffectOf(cfg, st, e))
    ensures Possible(cfg, st.tables, EffectOf(cfg, st, e))
  {
    AuthShape(cfg, st, name, cred, e);
  }

  lemma {:induction false} TablesFollow(cfg: Config, st: State, e: Event)
    ensures Next(cfg, st, e).tables == Effected(cfg, st.tables, EffectOf(cfg, st, e))
    ensures Possible(cfg, st.tables, EffectOf(cfg, st, e))
  {
    match e.op
    case LookupUser(id) => UserFollows(cfg, st, id, e);
    case LookupGroup(id) => GroupFollows(cfg, st, id, e);
    case Auth(name, cred) => AuthFollows(cfg, st, name, cred, e);
    case _ =>
  }

  // The token of an accepted credential was saved, and the password was not.
  ghost predicate OnlyPasswordLost(cfg: Config, st: State, e: Event) {
    && RawUser(st, e).Some? && e.faults.password
    && var tok := WithShell(cfg, RawUser(st, e).value, e.env.shellExists);
    SaveUser(cfg, st.tables, tok, e.env.tReply, e.faults.write).Some?
  }

  // A lookup that answers with an error leaves the committed tables as they were; so
  // does an authentication, unless only storing the password failed.
  lemma {:induction false} ErrLeavesTables(cfg: Config, st: State, e: Event)
    requires match e.op
             case LookupUser(id) => GetUser(cfg, st, id, e.env, e.faults).answer == Err
             case LookupGroup(id) => GetGroup(cfg, st, id, e.env, e.faults).answer == Err
             case Auth(name, cred) =>
               Authenticate(cfg, st, name, cred, e.env, e.faults).answer == Err && !OnlyPasswordLost(cfg, st, e)
             case _ => false
    ensures Next(cfg, st, e).tables == st.tables
  {
    match e.op
    case LookupUser(id) => UserShape(cfg, st, id, e);
    case LookupGroup(id) => GroupShape(cfg, st, id, e);
    case Auth(name, cred) => AuthShape(cfg, st, name, cred, e);
  }

  // Every step keeps all table invariants: uniqueness, agreement of the columns with
  // the token, membership agreement and, when enforced, the foreign keys.
  lemma {:induction false} StepSound(cfg: Config, st: State, e: Event)
    requires Sound(st.tables, cfg.fk)
    ensures Sound(Next(cfg, st, e).tables, cfg.fk)
  {
    TablesFollow(cfg, st, e);
    var t := st.tables;
    match EffectOf(cfg, st, e)
    case Nothing =>
    case StoresUser(tok, at) => SaveSound(cfg, t, tok, at);
    case AcceptsCred(tok, at, cred) =>
      SaveSound(cfg, t, tok, at);
      PasswordSound(Save(cfg, t, tok, at), cfg.fk, tok.uuid, cred);
    case StoresGroup(g, at) => PutGroupSound(t, cfg.fk, g, StoredExpiry(cfg, at));
    case DropsUser(u) => DelAccountSound(t, cfg.fk, u);
    case DropsGroup(u) => DelGroupSound(t, cfg.fk, u);
    case Clears => ClearSound(t, cfg.fk);
    case Expires => InvalidateSound(t, cfg.fk);
  }

  lemma {:induction false} SaveSound(cfg: Config, t: Tables, tok: UserToken, at: int)
    requires Sound(t, cfg.fk) && Possible(cfg, t, StoresUser(tok, at))
    ensures Sound(Save(cfg, t, tok, at), cfg.fk)
  {
    var e := StoredExpiry(cfg, at);
    PutGroupsSound(t, cfg.fk, tok.groups, e);
    PutAccountSound(PutGroups(t, cfg.fk, tok.groups, e), cfg.fk, tok, e);
  }

  // Storing a user succeeds exactly when storage holds, the deadline is representable
  // and, with foreign keys enforced, the token's groups do not push each other out.
  lemma {:induction false} SaveCommitsIff(cfg: Config, t: Tables, tok: UserToken, now: int, fault: bool)
    ensures SaveUser(cfg, t, tok, now, fault).Some? <==>
            var t := now + cfg.timeoutSeconds * 1_000_000_000;
            && !fault && t >= 0 && t / 1_000_000_000 <= 0x7fff_ffff_ffff_ffff
            && (cfg.fk ==> Coherent(tok.groups))
  {
    if ExpirySeconds(cfg, now).Ok? {
      LinkableIffCoherent(t, cfg.fk, tok.groups, ExpirySeconds(cfg, now).value);
    }
  }

  // --------------------------------------------- the effect seen from one row

  ghost predicate WritesUser(eff: Effect, u: string) {
    eff.Saves() && eff.tok.uuid == u
  }

  // An account row after a step is either the token just stored, or was there before
  // and differs at most by an invalidation.
  ghost predicate AccountRowStep(cfg: Config, t: Table<UserToken>, eff: Effect, t': Table<UserToken>, u: string)
    requires u in t'
  {
    var row := t'[u];
    if WritesUser(eff, u) then
      && row.token == eff.tok && row.expiry == StoredExpiry(cfg, eff.at)
      && row.password == (if eff.AcceptsCred? then Some(eff.cred) else if u in t then t[u].password else None)
    else
      && u in t && row.token == t[u].token && row.password == t[u].password
      && row.expiry == if eff.Expires? then 0 else t[u].expiry
  }

  lemma {:induction false} AccountRows(cfg: Config, t: Tables, eff: Effect, u: string)
    requires u in Effected(cfg, t, eff).accounts
    ensures AccountRowStep(cfg, t.accounts, eff, Effected(cfg, t, eff).accounts, u)
  {
    if eff.Saves() {
      PutGroupsAccounts(t, cfg.fk, eff.tok.groups, StoredExpiry(cfg, eff.at));
    }
  }

  // Group tokens an effect writes: a fetched group, or the groups of a user.
  function Carried(eff: Effect): seq<GroupToken> {
    match eff
    case StoresGroup(g, _) => [g]
    case StoresUser(tok, _) => tok.groups
    case AcceptsCred(tok, _, _) => tok.groups
    case _ => []
  }

  ghost predicate Lists(gs: seq<GroupToken>, u: string) {
    exists i :: 0 <= i < |gs| && gs[i].uuid == u
  }

  ghost predicate GroupRowStep(cfg: Config, t: Table<GroupToken>, eff: Effect, t': Table<GroupToken>, u: string)
    requires u in t'
  {
    var row := t'[u];
    if Lists(Carried(eff), u) then
      row.token in Carried(eff) && row.token.uuid == u && row.expiry == StoredExpiry(cfg, eff.at)
    else
      u in t && row.token == t[u].token && row.expiry == if eff.Expires? then 0 else t[u].expiry
  }

  lemma {:induction false} PutGroupsRow(t: Tables, fk: bool, gs: seq<GroupToken>, expiry: int, u: string)
    requires u in PutGroups(t, fk, gs, expiry).groups
    ensures var row := PutGroups(t, fk, gs, expiry).groups[u];
            if Lists(gs, u) then row.token in gs && row.token.uuid == u && row.expiry == expiry
            else u in t.groups && row == t.groups[u]
  {
    if gs != [] {
      var n := |gs| - 1;
      if gs[n].uuid != u {
        PutGroupsRow(t, fk, gs[..n], expiry, u);
        assert Lists(gs, u) <==> Lists(gs[..n], u) by {
          assert forall i | 0 <= i < n :: gs[..n][i] == gs[i];
        }
      }
    }
  }

  lemma {:induction false} GroupRows(cfg: Config, t: Tables, eff: Effect, u: string)
    requires u in Effected(cfg, t, eff).groups
    ensures GroupRowStep(cfg, t.groups, eff, Effected(cfg, t, eff).groups, u)
  {
    if eff.Saves() {
      PutGroupsRow(t, cfg.fk, eff.tok.groups, StoredExpiry(cfg, eff.at), u);
    } else if eff.StoresGroup? {
      assert Carried(eff)[0] == eff.group;
    }
  }
}
