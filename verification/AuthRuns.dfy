/** Where a positive authentication can come from, over whole runs. */
module AuthRuns {
  import opened Prelude
  import opened KeyedTable
  import opened CacheTables
  import opened Memberships
  import opened CacheSpec
  import opened CacheEffects
  import opened CacheRuns

  // Event j asked the server about cred, the server accepted it for uuid u, and the
  // call answered true.
  ghost predicate Vouches(cfg: Config, st: State, e: Event, u: string, cred: string) {
    && e.op.Auth? && e.op.cred == cred
    && RawUser(st, e).Some? && RawUser(st, e).value.uuid == u
    && Authenticate(cfg, st, e.op.name, cred, e.env, e.faults).answer == Ok(Some(true))
  }

  // Those are exactly the events that leave the credential in the tables.
  lemma {:induction false} RecordedIffVouched(cfg: Config, st: State, e: Event, u: string, cred: string)
    ensures var eff := EffectOf(cfg, st, e);
            eff.AcceptsCred? && eff.tok.uuid == u && eff.cred == cred <==> Vouches(cfg, st, e, u, cred)
  {
    if e.op.Auth? {
      AuthShape(cfg, st, e.op.name, e.op.cred, e);
    }
  }

  ghost predicate Vouched(r: Run, i: int, u: string, cred: string)
    requires IsRun(r) && 0 <= i < |r.events|
  {
    Vouches(r.cfg, r.states[i], r.events[i], u, cred)
  }

  lemma {:induction false} RunRecorded(r: Run, i: nat, u: string, cred: string)
    requires IsRun(r) && i < |r.events|
    ensures WritesUser(r.effects[i], u) && r.effects[i].AcceptsCred? && r.effects[i].cred == cred
            <==> Vouched(r, i, u, cred)
  {
    assert Linked(r, i);
    RecordedIffVouched(r.cfg, r.states[i], r.events[i], u, cred);
  }

  // The cached account u answers to the name, event j is the latest authentication of
  // u that the server accepted and the call confirmed, it used this credential, and
  // the row has stayed in the table since.
  ghost predicate RemembersCred(r: Run, k: int, name: string, cred: string, u: string, j: int)
    requires IsRun(r) && 0 <= k < |r.events|
  {
    && 0 <= j < k && Vouched(r, j, u, cred)
    && (forall i, c | j < i < k :: !Vouched(r, i, u, c))
    && (forall i | j < i <= k :: u in r.states[i].tables.accounts)
    && Matches(r.states[k].tables.accounts, u, Name(name))
  }

  lemma {:induction false} CachedCheck(cfg: Config, st: State, e: Event, name: string, cred: string) returns (u: string)
    requires Sound(st.tables, cfg.fk) && e.op == Auth(name, cred)
    requires Authenticate(cfg, st, name, cred, e.env, e.faults).answer == Ok(Some(true))
    requires RawUser(st, e) == None
    ensures u in st.tables.accounts && Matches(st.tables.accounts, u, Name(name))
    ensures PasswordOk(st.tables, u, cred)
    ensures !Asks(st, e) ==> st.tables.accounts[u].token.valid
  {
    AuthShape(cfg, st, name, cred, e);
    var item := ItemUser(st, Name(name), e.env.tRead);
    assert item.Some? && PasswordOk(st.tables, item.value.uuid, cred) && (!Asks(st, e) ==> item.value.valid);
    var t := st.tables.accounts;
    u :| u in t && Matches(t, u, Name(name)) && t[u].token == item.value;
    assert AccountRowOk(st.tables, u);
  }

  // Authentication provenance: true is answered only if the server accepted this
  // credential in this very call, or the latest credential it confirmed for that account
  // is this one and the row has been cached ever since. Without a question to the
  // server the cached token must also be valid.
  lemma {:induction false} AuthProvenance(r: Run, k: nat, name: string, cred: string)
    requires IsRun(r) && k < |r.events| && r.events[k].op == Auth(name, cred)
    requires Authenticate(r.cfg, r.states[k], name, cred, r.events[k].env, r.events[k].faults).answer == Ok(Some(true))
    ensures RawUser(r.states[k], r.events[k]).Some? ||
            exists u, j :: RemembersCred(r, k, name, cred, u, j)
              && (!Asks(r.states[k], r.events[k]) ==> r.states[k].tables.accounts[u].token.valid)
  {
    if RawUser(r.states[k], r.events[k]) == None {
      RunSound(r, k);
      var u := CachedCheck(r.cfg, r.states[k], r.events[k], name, cred);
      var j := PasswordOrigin(r, k, u, cred);
      RunRecorded(r, j, u, cred);
      forall i, c | j < i < k ensures !Vouched(r, i, u, c) {
        RunRecorded(r, i, u, c);
      }
      assert RemembersCred(r, k, name, cred, u, j);
    }
  }

  // A credential the server accepts but storage then loses is answered with an error,
  // and leaves whatever password the row had before in force.
  lemma {:induction false} LostStoreKeepsOldPassword(
    cfg: Config, st: State, e: Event, name: string, cred: string, c: string)
    requires e.op == Auth(name, cred) && RawUser(st, e).Some?
    requires Authenticate(cfg, st, name, cred, e.env, e.faults).answer == Err
    requires PasswordOk(st.tables, RawUser(st, e).value.uuid, c)
    ensures PasswordOk(Next(cfg, st, e).tables, RawUser(st, e).value.uuid, c)
  {
    var u := RawUser(st, e).value.uuid;
    TablesFollow(cfg, st, e);
    AuthShape(cfg, st, name, cred, e);
    if EffectOf(cfg, st, e).StoresUser? {
      AccountRows(cfg, st.tables, EffectOf(cfg, st, e), u);
    }
  }

  // What storing an accepted credential needs: storage that holds twice, a deadline
  // the tables can hold and, under foreign keys, groups that do not push each other out.
  ghost predicate Storable(cfg: Config, tok: UserToken, env: Env, f: Faults) {
    !f.write && !f.password && ExpirySeconds(cfg, env.tReply).Ok? && (cfg.fk ==> Coherent(tok.groups))
  }

  // A credential the server accepts is the cached one afterwards if and only if it can
  // be stored or was the cached one before.
  lemma {:induction false} AcceptedIsCachedIff(cfg: Config, st: State, e: Event, name: string, cred: string)
    requires e.op == Auth(name, cred) && RawUser(st, e).Some?
    ensures var raw := RawUser(st, e).value;
            PasswordOk(Next(cfg, st, e).tables, raw.uuid, cred) <==>
            Storable(cfg, raw, e.env, e.faults) || PasswordOk(st.tables, raw.uuid, cred)
  {
    var raw := RawUser(st, e).value;
    var tok, eff := WithShell(cfg, raw, e.env.shellExists), EffectOf(cfg, st, e);
    TablesFollow(cfg, st, e);
    SaveCommitsIff(cfg, st.tables, tok, e.env.tReply, e.faults.write);
    if eff.Saves() {
      assert raw.uuid in Effected(cfg, st.tables, eff).accounts;
      AccountRows(cfg, st.tables, eff, raw.uuid);
    }
  }

  // Event i asked the server about a credential, and the reply accepted it for account u.
  ghost predicate AcceptedAt(r: Run, i: int, u: string)
    requires IsRun(r) && 0 <= i < |r.events|
  {
    var raw := RawUser(r.states[i], r.events[i]);
    r.events[i].op.Auth? && raw.Some? && raw.value.uuid == u
  }

  // While nothing is accepted for u, its password does not change.
  lemma {:induction false} PasswordStays(r: Run, i: nat, u: string, cred: string)
    requires IsRun(r) && i < |r.events| && !AcceptedAt(r, i, u)
    requires u in r.states[i].tables.accounts && u in r.states[i + 1].tables.accounts
    ensures PasswordOk(r.states[i + 1].tables, u, cred) <==> PasswordOk(r.states[i].tables, u, cred)
  {
    assert Linked(r, i);
    UserRowStep(r, i, u);
  }

  // Event j is the latest before state k to have a credential accepted for u, and the row
  // has stayed in the table since.
  ghost predicate LatestAccepted(r: Run, j: int, k: int, u: string)
    requires IsRun(r) && 0 <= k < |r.states|
  {
    && 0 <= j < k && AcceptedAt(r, j, u)
    && (forall i | j < i < k :: !AcceptedAt(r, i, u))
    && (forall i | j < i <= k :: u in r.states[i].tables.accounts)
  }

  // The credential accepted at j could be stored then, or was the cached one already.
  ghost predicate Lasting(r: Run, j: int, u: string)
    requires IsRun(r) && 0 <= j < |r.events| && AcceptedAt(r, j, u)
  {
    var e := r.events[j];
    Storable(r.cfg, RawUser(r.states[j], e).value, e.env, e.faults) || PasswordOk(r.states[j].tables, u, e.op.cred)
  }

  // Over every run: as long as the row stays, the latest credential the server accepted
  // for an account is the cached one if and only if it was lasting.
  lemma {:induction false} LatestAcceptedIsCachedIff(r: Run, j: nat, k: nat, u: string)
    requires IsRun(r) && k < |r.states| && LatestAccepted(r, j, k, u)
    ensures PasswordOk(r.states[k].tables, u, r.events[j].op.cred) <==> Lasting(r, j, u)
  {
    if k == j + 1 {
      assert Linked(r, j);
      AcceptedIsCachedIff(r.cfg, r.states[j], r.events[j], r.events[j].op.name, r.events[j].op.cred);
    } else {
      LatestAcceptedIsCachedIff(r, j, k - 1, u);
      PasswordStays(r, k - 1, u, r.events[j].op.cred);
    }
  }

  // Where the row has stayed since some acceptance, there is a latest one.
  lemma {:induction false} LatestOf(r: Run, j: nat, k: nat, u: string) returns (l: nat)
    requires IsRun(r) && j < k < |r.states| && AcceptedAt(r, j, u)
    requires forall i | j < i <= k :: u in r.states[i].tables.accounts
    ensures LatestAccepted(r, l, k, u)
    decreases k - j
  {
    if i :| j < i < k && AcceptedAt(r, i, u) {
      l := LatestOf(r, i, k, u);
    } else {
      l := j;
    }
  }

  // An authentication answered true from the cache was given the latest credential the
  // server accepted for that account if and only if that credential was lasting.
  lemma {:induction false} CachedTrueIsLatestIff(r: Run, k: nat, name: string, cred: string) returns (u: string)
    requires IsRun(r) && k < |r.events| && r.events[k].op == Auth(name, cred)
    requires Authenticate(r.cfg, r.states[k], name, cred, r.events[k].env, r.events[k].faults).answer == Ok(Some(true))
    requires RawUser(r.states[k], r.events[k]) == None
    ensures u in r.states[k].tables.accounts && Matches(r.states[k].tables.accounts, u, Name(name))
    ensures exists j :: LatestAccepted(r, j, k, u)
    ensures forall j | LatestAccepted(r, j, k, u) :: r.events[j].op.cred == cred <==> Lasting(r, j, u)
  {
    RunSound(r, k);
    u := CachedCheck(r.cfg, r.states[k], r.events[k], name, cred);
    var first := PasswordOrigin(r, k, u, cred);
    RunRecorded(r, first, u, cred);
    assert AcceptedAt(r, first, u);
    var last := LatestOf(r, first, k, u);
    forall j | LatestAccepted(r, j, k, u) ensures r.events[j].op.cred == cred <==> Lasting(r, j, u) {
      LatestAcceptedIsCachedIff(r, j, k, u);
    }
  }

  // ---------------------------------------- a run in which the old credential stays

  // The server's reply to every credential: this user.
  function Accepting(tok: UserToken, t: int): Env {
    Env(t, t, t, t, true, Failed(OtherClient), Failed(OtherClient), Found(Some(tok)), true)
  }

  function Plain(name: string): UserToken {
    UserToken(name, name, name, 0, name, Some(""), [], [], true)
  }

  const CFG := Config(1, "", UidName, false)

  // Log in with the old credential, log in with the new one while storage fails, go
  // offline, log in with the old credential.
  function OldLogins(name: string, old_: string, new_: string): seq<Event> {
    var env := Accepting(Plain(name), 0);
    [Event(Auth(name, old_), env, Faults(false, false, false)),
     Event(Auth(name, new_), env, Faults(false, true, false)),
     Event(MarkOffline, env, Faults(false, false, false)),
     Event(Auth(name, old_), env, Faults(false, false, false))]
  }

  function OldRow(name: string, old_: string): Tables {
    Tables(map[name := Row(Keys(name, name, 0), Some(old_), Plain(name), 1)], map[], [])
  }

  lemma {:induction false} FirstLogin(name: string, old_: string, new_: string)
    ensures var st, e := State(EMPTY, OfflineNextCheck(0), []), OldLogins(name, old_, new_)[0];
            && Next(CFG, st, e) == State(OldRow(name, old_), Online, [])
            && EffectOf(CFG, st, e) == AcceptsCred(Plain(name), 0, old_)
  {
    var st, e, tok := State(EMPTY, OfflineNextCheck(0), []), OldLogins(name, old_, new_)[0], Plain(name);
    assert Find(EMPTY.accounts, Name(name)) == Ok(None);
    assert Asks(st, e) && WithShell(CFG, tok, true) == tok;
    var t := PutAccount(EMPTY, false, tok, 1);
    assert t.accounts == map[name := Row(Keys(name, name, 0), None, tok, 1)];
    assert SaveUser(CFG, EMPTY, tok, 0, false) == Some(t);
  }

  // What the cached row answers to its name.
  lemma {:induction false} OldRowFound(name: string, old_: string)
    ensures Find(OldRow(name, old_).accounts, Name(name)) == Ok(Some((Plain(name), 1)))
  {
    var t := OldRow(name, old_).accounts;
    assert name in t && Matches(t, name, Name(name));
    FindWritten(t, name, Name(name));
  }

  lemma {:induction false} SecondLogin(name: string, old_: string, new_: string)
    ensures var st, e := State(OldRow(name, old_), Online, []), OldLogins(name, old_, new_)[1];
            Next(CFG, st, e) == st && EffectOf(CFG, st, e) == Nothing && RawUser(st, e) == Some(Plain(name))
  {
    OldRowFound(name, old_);
    var st, e := State(OldRow(name, old_), Online, []), OldLogins(name, old_, new_)[1];
    assert Asks(st, e);
  }

  lemma {:induction false} LastLogin(name: string, old_: string, new_: string)
    ensures var st, e := State(OldRow(name, old_), Offline, []), OldLogins(name, old_, new_)[3];
            && Next(CFG, st, e) == st && EffectOf(CFG, st, e) == Nothing && Sent(CFG, st, e) == []
            && Authenticate(CFG, st, name, old_, e.env, e.faults).answer == Ok(Some(true))
  {
    OldRowFound(name, old_);
  }

  function OldRun(name: string, old_: string, new_: string): Run {
    var online, offline := State(OldRow(name, old_), Online, []), State(OldRow(name, old_), Offline, []);
    Run(CFG, [State(EMPTY, OfflineNextCheck(0), []), online, online, offline, offline], OldLogins(name, old_, new_),
        [AcceptsCred(Plain(name), 0, old_), Nothing, Nothing, Nothing])
  }

  lemma {:induction false} OldRunSteps(name: string, old_: string, new_: string, i: nat)
    requires i < 4
    ensures Linked(OldRun(name, old_, new_), i)
  {
    match i
    case 0 => FirstLogin(name, old_, new_);
    case 1 => SecondLogin(name, old_, new_);
    case 2 =>
    case _ => LastLogin(name, old_, new_);
  }

  lemma {:induction false} OldRunIsRun(name: string, old_: string, new_: string)
    ensures IsRun(OldRun(name, old_, new_)) && Timed(OldRun(name, old_, new_))
  {
    forall i | 0 <= i < 4 ensures Linked(OldRun(name, old_, new_), i) {
      OldRunSteps(name, old_, new_, i);
    }
  }

  // So "the latest credential the server accepted" is not what the cache checks: here is
  // a run, for any name and credentials, in which the server last accepted the new one
  // and the old one is answered true without a request.
  lemma {:induction false} OldCredentialStillAnswers(name: string, old_: string, new_: string) returns (r: Run)
    ensures IsRun(r) && Timed(r) && |r.events| == 4
    ensures LatestAccepted(r, 1, 3, name) && r.events[1].op == Auth(name, new_)
    ensures r.events[3].op == Auth(name, old_) && Sent(r.cfg, r.states[3], r.events[3]) == []
    ensures Authenticate(r.cfg, r.states[3], name, old_, r.events[3].env, r.events[3].faults).answer == Ok(Some(true))
  {
    r := OldRun(name, old_, new_);
    OldRunIsRun(name, old_, new_);
    SecondLogin(name, old_, new_);
    LastLogin(name, old_, new_);
  }
}
