/** The tables of every run as the outcome of a history of row changes: what is cached is
    exactly what the latest standing writes left. */
module TableHistory {
  import opened Prelude
  import opened KeyedTable
  import opened CacheTables
  import opened Memberships
  import opened CacheSpec
  import opened CacheEffects
  import opened CacheRuns

  // What an effect does to the accounts, and to the groups, row by row.
  function WriteUser(cfg: Config, tok: UserToken, at: int): Change<UserToken> {
    Write(tok.uuid, Keys(tok.name, tok.spn, tok.gidnumber), tok, WholeSeconds(cfg, at))
  }

  function WriteGroup(cfg: Config, tok: GroupToken, at: int): Change<GroupToken> {
    Write(tok.uuid, Keys(tok.name, tok.spn, tok.gidnumber), tok, WholeSeconds(cfg, at))
  }

  function AccountChanges(cfg: Config, eff: Effect): seq<Change<UserToken>> {
    match eff
    case StoresUser(tok, at) => [WriteUser(cfg, tok, at)]
    case AcceptsCred(tok, at, cred) => [WriteUser(cfg, tok, at), Password(tok.uuid, cred)]
    case DropsUser(u) => [Remove(u)]
    case Clears => [Wipe]
    case Expires => [Expire]
    case _ => []
  }

  function GroupWrites(cfg: Config, gs: seq<GroupToken>, at: int): seq<Change<GroupToken>> {
    if gs == [] then [] else GroupWrites(cfg, gs[..|gs| - 1], at) + [WriteGroup(cfg, gs[|gs| - 1], at)]
  }

  // The groups of a user are written in the order the token lists them.
  function GroupChanges(cfg: Config, eff: Effect): seq<Change<GroupToken>> {
    match eff
    case StoresUser(tok, at) => GroupWrites(cfg, tok.groups, at)
    case AcceptsCred(tok, at, _) => GroupWrites(cfg, tok.groups, at)
    case StoresGroup(tok, at) => [WriteGroup(cfg, tok, at)]
    case DropsGroup(u) => [Remove(u)]
    case Clears => [Wipe]
    case Expires => [Expire]
    case _ => []
  }

  function ApplyAll<T>(t: Table<T>, cs: seq<Change<T>>): Table<T> {
    if cs == [] then t else Apply(ApplyAll(t, cs[..|cs| - 1]), cs[|cs| - 1])
  }

  lemma {:induction false} ApplyOne<T>(t: Table<T>, c: Change<T>)
    ensures ApplyAll(t, [c]) == Apply(t, c)
  {
    assert [c][..0] == [];
  }

  lemma {:induction false} ApplyTwo<T>(t: Table<T>, c: Change<T>, d: Change<T>)
    ensures ApplyAll(t, [c, d]) == Apply(Apply(t, c), d)
  {
    assert [c, d][..1] == [c];
    ApplyOne(t, c);
  }

  lemma {:induction false} AccountsAreChanges(cfg: Config, t: Tables, eff: Effect)
    ensures Effected(cfg, t, eff).accounts == ApplyAll(t.accounts, AccountChanges(cfg, eff))
  {
    match eff
    case StoresUser(tok, at) =>
      PutGroupsAccounts(t, cfg.fk, tok.groups, StoredExpiry(cfg, at));
      ApplyOne(t.accounts, WriteUser(cfg, tok, at));
    case AcceptsCred(tok, at, cred) =>
      PutGroupsAccounts(t, cfg.fk, tok.groups, StoredExpiry(cfg, at));
      ApplyTwo(t.accounts, WriteUser(cfg, tok, at), Password(tok.uuid, cred));
    case DropsUser(u) => ApplyOne(t.accounts, Change<UserToken>.Remove(u));
    case Clears => ApplyOne(t.accounts, Change<UserToken>.Wipe);
    case Expires => ApplyOne(t.accounts, Change<UserToken>.Expire);
    case _ =>
  }

  lemma {:induction false} GroupWritesAre(cfg: Config, t: Tables, gs: seq<GroupToken>, at: int)
    requires NoPasswords(t.groups)
    ensures PutGroups(t, cfg.fk, gs, StoredExpiry(cfg, at)).groups == ApplyAll(t.groups, GroupWrites(cfg, gs, at))
    ensures NoPasswords(PutGroups(t, cfg.fk, gs, StoredExpiry(cfg, at)).groups)
  {
    if gs != [] {
      var n := |gs| - 1;
      GroupWritesAre(cfg, t, gs[..n], at);
      var ws, w := GroupWrites(cfg, gs[..n], at), WriteGroup(cfg, gs[n], at);
      assert (ws + [w])[..|ws|] == ws;
      ReplaceRefinesPut(PutGroups(t, cfg.fk, gs[..n], StoredExpiry(cfg, at)).groups, gs[n].uuid, GroupKeys(gs[n]),
                        gs[n], StoredExpiry(cfg, at));
    }
  }

  lemma {:induction false} GroupsAreChanges(cfg: Config, t: Tables, eff: Effect)
    requires NoPasswords(t.groups)
    ensures Effected(cfg, t, eff).groups == ApplyAll(t.groups, GroupChanges(cfg, eff))
  {
    match eff
    case StoresUser(tok, at) => GroupWritesAre(cfg, t, tok.groups, at);
    case AcceptsCred(tok, at, _) => GroupWritesAre(cfg, t, tok.groups, at);
    case StoresGroup(tok, at) =>
      ReplaceRefinesPut(t.groups, tok.uuid, GroupKeys(tok), tok, StoredExpiry(cfg, at));
      ApplyOne(t.groups, WriteGroup(cfg, tok, at));
    case DropsGroup(u) => ApplyOne(t.groups, Change<GroupToken>.Remove(u));
    case Clears => ApplyOne(t.groups, Change<GroupToken>.Wipe);
    case Expires => ApplyOne(t.groups, Change<GroupToken>.Expire);
    case _ =>
  }

  // -------------------------------------------------------------------------- whole runs

  lemma {:induction false} AfterThen<T>(h: seq<Change<T>>, cs: seq<Change<T>>)
    ensures After(h + cs, |h + cs|) == ApplyAll(After(h, |h|), cs)
  {
    if cs == [] {
      assert h + cs == h;
    } else {
      var front, c := cs[..|cs| - 1], cs[|cs| - 1];
      AfterThen(h, front);
      assert h + cs == (h + front) + [c];
      AfterPrefix(h + front, [c], |h + front|);
    }
  }

  lemma {:induction false} AfterPrefix<T>(h: seq<Change<T>>, more: seq<Change<T>>, n: nat)
    requires n <= |h|
    ensures After(h + more, n) == After(h, n)
  {
    if n > 0 {
      AfterPrefix(h, more, n - 1);
    }
  }

  ghost function AccountHistory(r: Run, k: nat): seq<Change<UserToken>>
    requires k <= |r.effects|
  {
    if k == 0 then [] else AccountHistory(r, k - 1) + AccountChanges(r.cfg, r.effects[k - 1])
  }

  ghost function GroupHistory(r: Run, k: nat): seq<Change<GroupToken>>
    requires k <= |r.effects|
  {
    if k == 0 then [] else GroupHistory(r, k - 1) + GroupChanges(r.cfg, r.effects[k - 1])
  }

  lemma {:induction false} RunAccounts(r: Run, k: nat)
    requires IsRun(r) && k < |r.states|
    ensures r.states[k].tables.accounts == After(AccountHistory(r, k), |AccountHistory(r, k)|)
  {
    if k > 0 {
      RunAccounts(r, k - 1);
      assert Linked(r, k - 1);
      TablesFollow(r.cfg, r.states[k - 1], r.events[k - 1]);
      AccountsAreChanges(r.cfg, r.states[k - 1].tables, r.effects[k - 1]);
      AfterThen(AccountHistory(r, k - 1), AccountChanges(r.cfg, r.effects[k - 1]));
    }
  }

  lemma {:induction false} RunGroups(r: Run, k: nat)
    requires IsRun(r) && k < |r.states|
    ensures r.states[k].tables.groups == After(GroupHistory(r, k), |GroupHistory(r, k)|)
  {
    if k > 0 {
      RunGroups(r, k - 1);
      RunSound(r, k - 1);
      assert Linked(r, k - 1);
      TablesFollow(r.cfg, r.states[k - 1], r.events[k - 1]);
      GroupsAreChanges(r.cfg, r.states[k - 1].tables, r.effects[k - 1]);
      AfterThen(GroupHistory(r, k - 1), GroupChanges(r.cfg, r.effects[k - 1]));
    }
  }

  // In every state of every run an account is cached if and only if its latest write still
  // stands: no deletion of it, no clear, and no write of another uuid with its name, spn or
  // gid came after. Its row is that write, run out if the cache was invalidated since.
  lemma {:induction false} RunLastWriter(r: Run, k: nat, u: string)
    requires IsRun(r) && k < |r.states|
    ensures var h, t := AccountHistory(r, k), r.states[k].tables.accounts;
            && (u in t <==> exists i :: Stands(h, |h|, i, u))
            && forall i :: Stands(h, |h|, i, u) ==>
                 t[u].token == h[i].token && t[u].expiry == if ExpiredSince(h, |h|, i) then 0 else h[i].expiry
  {
    RunAccounts(r, k);
    LastWriterWins(AccountHistory(r, k), |AccountHistory(r, k)|, u);
  }

  lemma {:induction false} RunLastGroupWriter(r: Run, k: nat, u: string)
    requires IsRun(r) && k < |r.states|
    ensures var h, t := GroupHistory(r, k), r.states[k].tables.groups;
            && (u in t <==> exists i :: Stands(h, |h|, i, u))
            && forall i :: Stands(h, |h|, i, u) ==>
                 t[u].token == h[i].token && t[u].expiry == if ExpiredSince(h, |h|, i) then 0 else h[i].expiry
  {
    RunGroups(r, k);
    LastWriterWins(GroupHistory(r, k), |GroupHistory(r, k)|, u);
  }

  // In every state of every run a user lookup in the tables finds a token if and only if it
  // is cached, its own uuid, name, spn or gid is the one asked for, and no other cached
  // token's is.
  lemma {:induction false} RunFindsByToken(r: Run, k: nat, id: Id, tok: UserToken)
    requires IsRun(r) && k < |r.states|
    ensures var t := r.states[k].tables;
            (exists x :: Find(t.accounts, id) == Ok(Some((tok, x)))) <==>
            Holds(t, tok) && Answers(tok, id)
            && forall v | v in t.accounts && Answers(t.accounts[v].token, id) :: v == tok.uuid
  {
    RunSound(r, k);
    var t := r.states[k].tables;
    assert forall v | v in t.accounts :: AccountRowOk(t, v);
    assert forall v | v in t.accounts :: Answers(t.accounts[v].token, id) <==> Matches(t.accounts, v, id);
    if Holds(t, tok) && Answers(tok, id) {
      FindWritten(t.accounts, tok.uuid, id);
    }
  }

  predicate Answers(tok: UserToken, id: Id) {
    match id
    case Name(n) => tok.uuid == n || tok.name == n || tok.spn == n
    case Gid(g) => tok.gidnumber == g
  }
}
