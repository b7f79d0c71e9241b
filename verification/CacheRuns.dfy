/** Promises of the cache layer over whole sequential runs: any operations, any server
    replies, any storage errors, any restarts on the same database. */
module CacheRuns {
  import opened Prelude
  import opened KeyedTable
  import opened CacheTables
  import opened Memberships
  import opened NegativeCache
  import opened CacheSpec
  import opened CacheEffects

  // The states a run goes through, the events between them, and what each event did
  // to the tables.
  datatype Run = Run(cfg: Config, states: seq<State>, events: seq<Event>, effects: seq<Effect>)

  ghost predicate Linked(r: Run, i: int)
    requires 0 <= i < |r.events| == |r.effects| && |r.states| == |r.events| + 1
  {
    && r.states[i + 1] == Next(r.cfg, r.states[i], r.events[i])
    && r.effects[i] == EffectOf(r.cfg, r.states[i], r.events[i])
  }

  ghost predicate IsRun(r: Run) {
    && |r.events| == |r.effects| && |r.states| == |r.events| + 1
    && r.states[0].tables == EMPTY && r.states[0].nx == []
    && forall i | 0 <= i < |r.events| :: Linked(r, i)
  }

  // The clock never runs backwards, within an operation or from one to the next.
  ghost predicate Timed(r: Run) {
    && (forall i | 0 <= i < |r.events| ::
          var v := r.events[i].env; v.tRead <= v.tGate <= v.tProbe <= v.tReply)
    && (forall i, j | 0 <= i < j < |r.events| :: r.events[i].env.tReply <= r.events[j].env.tRead)
  }

  // Every state of every run satisfies the table invariants; with MembershipAgreement
  // this fixes what each group lookup answers in every committed state.
  lemma {:induction false} RunSound(r: Run, k: nat)
    requires IsRun(r) && k < |r.states|
    ensures Sound(r.states[k].tables, r.cfg.fk)
  {
    if k > 0 {
      RunSound(r, k - 1);
      assert Linked(r, k - 1);
      StepSound(r.cfg, r.states[k - 1], r.events[k - 1]);
    }
  }

  // Group membership as answered in every state of every run.
  lemma {:induction false} RunMembership(r: Run, k: nat, g: string, tok: UserToken)
    requires IsRun(r) && k < |r.states|
    ensures var t := r.states[k].tables;
            var answered := multiset(Join(t.accounts, t.members, g))[tok];
            var listed := if Holds(t, tok) then multiset(Uuids(tok.groups))[g] else 0;
            answered <= listed && (!r.cfg.fk ==> answered == listed)
  {
    RunSound(r, k);
    MembershipAgreement(r.states[k].tables, r.cfg.fk, g, tok);
  }

  // In every state of every run a lookup by gid finds one row or none.
  lemma {:induction false} RunGidFound(r: Run, k: nat, g: nat)
    requires IsRun(r) && k < |r.states|
    ensures Find(r.states[k].tables.accounts, Gid(g)).Ok? && Find(r.states[k].tables.groups, Gid(g)).Ok?
  {
    var t := r.states[k].tables;
    RunSound(r, k);
    GidNeverAmbiguous(t.accounts, g);
    GidNeverAmbiguous(t.groups, g);
    assert forall u | u in t.accounts :: AccountRowOk(t, u);
    assert forall u | u in t.groups :: GroupRowOk(t, u);
  }

  // ---------------------------------------------------------- where rows come from

  lemma {:induction false} UserRowStep(r: Run, i: nat, u: string)
    requires IsRun(r) && i < |r.events| && u in r.states[i + 1].tables.accounts
    ensures AccountRowStep(r.cfg, r.states[i].tables.accounts, r.effects[i], r.states[i + 1].tables.accounts, u)
  {
    assert Linked(r, i);
    TablesFollow(r.cfg, r.states[i], r.events[i]);
    AccountRows(r.cfg, r.states[i].tables, r.effects[i], u);
  }

  lemma {:induction false} GroupRowsStep(r: Run, i: nat, u: string)
    requires IsRun(r) && i < |r.events| && u in r.states[i + 1].tables.groups
    ensures GroupRowStep(r.cfg, r.states[i].tables.groups, r.effects[i], r.states[i + 1].tables.groups, u)
  {
    assert Linked(r, i);
    TablesFollow(r.cfg, r.states[i], r.events[i]);
    GroupRows(r.cfg, r.states[i].tables, r.effects[i], u);
  }

  ghost predicate ExpiredBetween(r: Run, j: int, k: int)
    requires 0 <= j && k <= |r.effects|
  {
    exists i :: j < i < k && r.effects[i].Expires?
  }

  // The row of u in state k is the token stored by event j; nothing stored u again or
  // let it go in between; its expiry is j's deadline unless invalidated since.
  ghost predicate UserFrom(r: Run, k: int, u: string, j: int)
    requires IsRun(r) && 0 <= k < |r.states|
  {
    && 0 <= j < k && WritesUser(r.effects[j], u)
    && (forall i | j < i < k :: !WritesUser(r.effects[i], u))
    && (forall i | j < i <= k :: u in r.states[i].tables.accounts)
    && var row := r.states[k].tables.accounts[u];
    && row.token == r.effects[j].tok
    && row.expiry == if ExpiredBetween(r, j, k) then 0 else WholeSeconds(r.cfg, r.effects[j].at)
  }

  // A deadline as the tables hold it, in whole seconds.
  function WholeSeconds(cfg: Config, at: int): int {
    (at + cfg.timeoutSeconds * 1_000_000_000) / 1_000_000_000
  }

  lemma {:induction false} UserOrigin(r: Run, k: nat, u: string) returns (j: int)
    requires IsRun(r) && k < |r.states| && u in r.states[k].tables.accounts
    ensures UserFrom(r, k, u, j)
  {
    if k == 0 {
      assert false;
    }
    UserRowStep(r, k - 1, u);
    if WritesUser(r.effects[k - 1], u) {
      j := k - 1;
    } else {
      j := UserOrigin(r, k - 1, u);
      assert ExpiredBetween(r, j, k) <==> ExpiredBetween(r, j, k - 1) || r.effects[k - 1].Expires?;
    }
  }

  ghost predicate GroupFrom(r: Run, k: int, u: string, j: int)
    requires IsRun(r) && 0 <= k < |r.states|
  {
    && 0 <= j < k && Lists(Carried(r.effects[j]), u)
    && (forall i | j < i < k :: !Lists(Carried(r.effects[i]), u))
    && (forall i | j < i <= k :: u in r.states[i].tables.groups)
    && var row := r.states[k].tables.groups[u];
    && row.token in Carried(r.effects[j])
    && row.expiry == if ExpiredBetween(r, j, k) then 0 else WholeSeconds(r.cfg, r.effects[j].at)
  }

  lemma {:induction false} GroupOrigin(r: Run, k: nat, u: string) returns (j: int)
    requires IsRun(r) && k < |r.states| && u in r.states[k].tables.groups
    ensures GroupFrom(r, k, u, j)
  {
    if k == 0 {
      assert false;
    }
    GroupRowsStep(r, k - 1, u);
    if Lists(Carried(r.effects[k - 1]), u) {
      j := k - 1;
    } else {
      j := GroupOrigin(r, k - 1, u);
      assert ExpiredBetween(r, j, k) <==> ExpiredBetween(r, j, k - 1) || r.effects[k - 1].Expires?;
    }
  }

  // Event j recorded cred as accepted by the server for u, no later event recorded
  // another, and the row has stayed in the table since.
  ghost predicate PasswordFrom(r: Run, k: int, u: string, cred: string, j: int)
    requires IsRun(r) && 0 <= k < |r.states|
  {
    && 0 <= j < k && WritesUser(r.effects[j], u) && r.effects[j].AcceptsCred? && r.effects[j].cred == cred
    && (forall i | j < i < k :: !(WritesUser(r.effects[i], u) && r.effects[i].AcceptsCred?))
    && (forall i | j < i <= k :: u in r.states[i].tables.accounts)
  }

  lemma {:induction false} PasswordOrigin(r: Run, k: nat, u: string, cred: string) returns (j: int)
    requires IsRun(r) && k < |r.states|
    requires PasswordOk(r.states[k].tables, u, cred)
    ensures PasswordFrom(r, k, u, cred, j)
  {
    if k == 0 {
      assert false;
    }
    UserRowStep(r, k - 1, u);
    if WritesUser(r.effects[k - 1], u) && r.effects[k - 1].AcceptsCred? {
      j := k - 1;
    } else {
      j := PasswordOrigin(r, k - 1, u, cred);
    }
  }

  // ------------------------------------------------------------- bounded staleness

  // tok is the server's reply in every field but the shell, which is the reply's if it
  // names one that exists here, and otherwise the default.
  predicate IsReply(cfg: Config, raw: UserToken, shellExists: bool, tok: UserToken) {
    && tok.name == raw.name && tok.spn == raw.spn && tok.displayname == raw.displayname
    && tok.gidnumber == raw.gidnumber && tok.uuid == raw.uuid && tok.groups == raw.groups
    && tok.sshkeys == raw.sshkeys && tok.valid == raw.valid
    && tok.shell == if raw.shell != None && shellExists then raw.shell else Some(cfg.defaultShell)
  }

  // Event j got `raw` from the server and tok is raw up to shell defaulting; it did so
  // less than the timeout before now, nothing newer for that uuid was stored before
  // event k, and the cache was not invalidated in between.
  ghost predicate FreshUser(r: Run, k: int, tok: UserToken, now: int, j: int)
    requires IsRun(r) && 0 <= k < |r.states|
  {
    && 0 <= j < k
    && RawUser(r.states[j], r.events[j]).Some?
    && IsReply(r.cfg, RawUser(r.states[j], r.events[j]).value, r.events[j].env.shellExists, tok)
    && 0 <= now - r.events[j].env.tReply < r.cfg.timeoutSeconds * 1_000_000_000
    && (forall i | j < i < k :: !WritesUser(r.effects[i], tok.uuid))
    && (0 <= now ==> forall i | j < i < k :: !r.effects[i].Expires?)
  }

  // A lookup that finds an entry unexpired found it in one row.
  lemma {:induction false} FreshHit<T>(t: Table<T>, nx: seq<Entry>, id: Id, now: int, tok: T) returns (u: string)
    requires Cached(t, nx, id, now) == Ok((false, Some(tok)))
    ensures u in t && Matches(t, u, id) && t[u].token == tok && now < t[u].expiry * SECOND
  {
    u :| u in t && Matches(t, u, id) && t[u].token == tok && now < t[u].expiry * SECOND;
  }

  lemma {:induction false} SavedReply(r: Run, j: nat)
    requires IsRun(r) && j < |r.events| && r.effects[j].Saves()
    ensures var eff, raw := r.effects[j], RawUser(r.states[j], r.events[j]);
            && Asks(r.states[j], r.events[j]) && raw.Some? && eff.at == r.events[j].env.tReply
            && eff.tok == WithShell(r.cfg, raw.value, r.events[j].env.shellExists)
    ensures Deadline(r.cfg, r.events[j].env.tReply) >= 0
  {
    assert Linked(r, j);
    SavedIsReply(r.cfg, r.states[j], r.events[j]);
  }

  lemma {:induction false} CarriedReply(r: Run, j: nat)
    requires IsRun(r) && j < |r.events| && Carried(r.effects[j]) != []
    ensures Asks(r.states[j], r.events[j]) && r.effects[j].at == r.events[j].env.tReply
    ensures var eff, raw := r.effects[j], RawUser(r.states[j], r.events[j]);
            if eff.StoresGroup? then r.events[j].op.LookupGroup? && Found(eff.group) == r.events[j].env.groupReply
            else raw.Some? && raw.value.groups == Carried(eff)
    ensures Deadline(r.cfg, r.events[j].env.tReply) >= 0
  {
    assert Linked(r, j);
    if r.effects[j].Saves() {
      SavedIsReply(r.cfg, r.states[j], r.events[j]);
    }
  }

  // The answer of a lookup that did not find its entry expired.
  lemma {:induction false} BoundedStalenessUser(r: Run, k: nat, id: Id, tok: UserToken)
    requires IsRun(r) && Timed(r) && k < |r.events|
    requires var st := r.states[k];
             Cached(st.tables.accounts, st.nx, id, r.events[k].env.tRead) == Ok((false, Some(tok)))
    ensures exists j :: FreshUser(r, k, tok, r.events[k].env.tRead, j)
    ensures tok.uuid in r.states[k].tables.accounts && Matches(r.states[k].tables.accounts, tok.uuid, id)
  {
    var t, now := r.states[k].tables.accounts, r.events[k].env.tRead;
    var u := FreshHit(t, r.states[k].nx, id, now, tok);
    RunSound(r, k);
    assert AccountRowOk(r.states[k].tables, u);
    var j := UserOrigin(r, k, u);
    SavedReply(r, j);
    assert FreshUser(r, k, tok, now, j);
  }

  // While Online, an answer that took no request is such an answer.
  lemma {:induction false} OnlineUserAnswerIsFresh(r: Run, k: nat, id: Id, tok: UserToken)
    requires IsRun(r) && Timed(r) && k < |r.events|
    requires r.events[k].op == LookupUser(id) && r.states[k].mode == Online
    requires Sent(r.cfg, r.states[k], r.events[k]) == []
    requires GetUser(r.cfg, r.states[k], id, r.events[k].env, r.events[k].faults).answer == Ok(Some(tok))
    ensures exists j :: FreshUser(r, k, tok, r.events[k].env.tRead, j)
  {
    BoundedStalenessUser(r, k, id, tok);
  }

  // Event j asked the server about a group and got tok, or got a user that lists tok; it
  // did so less than the timeout before now, with nothing newer and no invalidation since.
  ghost predicate FreshGroup(r: Run, k: int, tok: GroupToken, now: int, j: int)
    requires IsRun(r) && 0 <= k < |r.states|
  {
    && 0 <= j < k
    && Asks(r.states[j], r.events[j])
    && ((r.events[j].op.LookupGroup? && r.events[j].env.groupReply == Found(tok)) ||
        (RawUser(r.states[j], r.events[j]).Some? && tok in RawUser(r.states[j], r.events[j]).value.groups))
    && 0 <= now - r.events[j].env.tReply < r.cfg.timeoutSeconds * 1_000_000_000
    && (forall i | j < i < k :: !Lists(Carried(r.effects[i]), tok.uuid))
    && (0 <= now ==> forall i | j < i < k :: !r.effects[i].Expires?)
  }

  // A group answer was fetched as such, or came along with a user that lists it.
  lemma {:induction false} BoundedStalenessGroup(r: Run, k: nat, id: Id, tok: GroupToken)
    requires IsRun(r) && Timed(r) && k < |r.events|
    requires var st := r.states[k];
             Cached(st.tables.groups, st.nx, id, r.events[k].env.tRead) == Ok((false, Some(tok)))
    ensures exists j :: FreshGroup(r, k, tok, r.events[k].env.tRead, j)
    ensures tok.uuid in r.states[k].tables.groups && Matches(r.states[k].tables.groups, tok.uuid, id)
  {
    var t, now := r.states[k].tables.groups, r.events[k].env.tRead;
    var u := FreshHit(t, r.states[k].nx, id, now, tok);
    RunSound(r, k);
    assert GroupRowOk(r.states[k].tables, u);
    var j := GroupOrigin(r, k, u);
    CarriedReply(r, j);
    assert FreshGroup(r, k, tok, now, j);
  }

  lemma {:induction false} OnlineGroupAnswerIsFresh(r: Run, k: nat, id: Id, tok: GroupToken)
    requires IsRun(r) && Timed(r) && k < |r.events|
    requires r.events[k].op == LookupGroup(id) && r.states[k].mode == Online
    requires Sent(r.cfg, r.states[k], r.events[k]) == []
    requires GetGroup(r.cfg, r.states[k], id, r.events[k].env, r.events[k].faults).answer == Ok(Some(tok))
    ensures exists j :: FreshGroup(r, k, tok, r.events[k].env.tRead, j)
  {
    BoundedStalenessGroup(r, k, id, tok);
  }
}
