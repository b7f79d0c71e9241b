/** Group membership over whole runs with foreign keys enforced, where replacing a group
    row takes the memberships in that group along. */
module MembershipRuns {
  import opened Prelude
  import opened KeyedTable
  import opened CacheTables
  import opened Memberships
  import opened NegativeCache
  import opened CacheSpec
  import opened CacheEffects
  import opened CacheRuns

  // How many membership rows account u has in group g.
  ghost function Rows(ms: seq<Member>, g: string, u: string): nat {
    multiset(GroupsOf(ms, u))[g]
  }

  lemma {:induction false} RowsAre(ms: seq<Member>, g: string, u: string)
    ensures Rows(ms, g, u) > 0 <==> Member(g, u) in ms
  {
    if ms != [] {
      RowsAre(ms[1..], g, u);
      assert ms == [ms[0]] + ms[1..];
    }
  }

  // Rows go together: all that account u has in group g, or none.
  lemma {:induction false} PruneRows(ms: seq<Member>, gs: set<string>, us: set<string>, g: string, u: string)
    ensures Rows(Prune(ms, gs, us), g, u) == if g in gs || u in us then 0 else Rows(ms, g, u)
  {
    if ms != [] {
      PruneRows(ms[1..], gs, us, g, u);
      if !(ms[0].g in gs || ms[0].a in us) {
        var rest := Prune(ms[1..], gs, us);
        assert ([ms[0]] + rest)[1..] == rest;
      }
    }
  }

  // Storing group c replaces the row of group g.
  ghost predicate Ousts(groups: Table<GroupToken>, c: GroupToken, g: string) {
    g in groups && (c.uuid == g || Clash(groups[g].keys, GroupKeys(c)))
  }

  ghost predicate OustedBy(groups: Table<GroupToken>, gs: seq<GroupToken>, g: string) {
    exists i :: 0 <= i < |gs| && Ousts(groups, gs[i], g)
  }

  // The effect takes every member out of group g: it stores a group that replaces g's row,
  // on its own or with a user, or drops that row.
  ghost predicate Takes(t: Tables, eff: Effect, g: string) {
    OustedBy(t.groups, Carried(eff), g) || eff == DropsGroup(g) || eff.Clears?
  }

  // The foreign key on groups holds through a list of group writes.
  lemma {:induction false} PutGroupsReferenced(t: Tables, gs: seq<GroupToken>, expiry: int)
    requires Referenced(t)
    ensures Referenced(PutGroups(t, true, gs, expiry))
  {
    if gs != [] {
      var n := |gs| - 1;
      var t1 := PutGroups(t, true, gs[..n], expiry);
      PutGroupsReferenced(t, gs[..n], expiry);
      PruneMembers(t1.members, Displaced(t1.groups, gs[n].uuid, GroupKeys(gs[n])), {});
    }
  }

  lemma {:induction false} PutGroupsRows(t: Tables, gs: seq<GroupToken>, expiry: int, g: string, u: string)
    requires Referenced(t)
    ensures Rows(PutGroups(t, true, gs, expiry).members, g, u) ==
            if OustedBy(t.groups, gs, g) then 0 else Rows(t.members, g, u)
  {
    if gs != [] {
      var n := |gs| - 1;
      var front, c := gs[..n], gs[n];
      var t1 := PutGroups(t, true, front, expiry);
      PutGroupsRows(t, front, expiry, g, u);
      PruneRows(t1.members, Displaced(t1.groups, c.uuid, GroupKeys(c)), {}, g, u);
      OustedSnoc(t.groups, gs, g);
      if Rows(t1.members, g, u) > 0 {
        KeptRow(t, front, expiry, g, u);
      }
    }
  }

  lemma {:induction false} OustedSnoc(groups: Table<GroupToken>, gs: seq<GroupToken>, g: string)
    requires gs != []
    ensures OustedBy(groups, gs, g) <==> OustedBy(groups, gs[..|gs| - 1], g) || Ousts(groups, gs[|gs| - 1], g)
  {
    var front := gs[..|gs| - 1];
    if i :| 0 <= i < |front| && Ousts(groups, front[i], g) {
      assert gs[i] == front[i];
    }
    if i :| 0 <= i < |gs| && Ousts(groups, gs[i], g) {
      assert i < |front| ==> front[i] == gs[i];
    }
  }

  // A group that still has members has its former row.
  lemma {:induction false} KeptRow(t: Tables, gs: seq<GroupToken>, expiry: int, g: string, u: string)
    requires Referenced(t) && !OustedBy(t.groups, gs, g)
    requires Rows(t.members, g, u) > 0 && Rows(PutGroups(t, true, gs, expiry).members, g, u) > 0
    ensures var t1 := PutGroups(t, true, gs, expiry); g in t.groups && g in t1.groups && t1.groups[g] == t.groups[g]
  {
    var t1 := PutGroups(t, true, gs, expiry);
    PutGroupsReferenced(t, gs, expiry);
    RowsAre(t.members, g, u);
    RowsAre(t1.members, g, u);
    assert Member(g, u) in t.members && Member(g, u) in t1.members;
    PutGroupsRow(t, true, gs, expiry, g);
    if i :| 0 <= i < |gs| && gs[i].uuid == g {
      assert Ousts(t.groups, gs[i], g);
    }
  }

  lemma {:induction false} PutAccountRows(t: Tables, a: UserToken, expiry: int, g: string, u: string)
    requires u in PutAccount(t, true, a, expiry).accounts
    ensures Rows(PutAccount(t, true, a, expiry).members, g, u) ==
            if u == a.uuid then multiset(Uuids(a.groups))[g] else Rows(t.members, g, u)
  {
    var purged := Displaced(t.accounts, a.uuid, UserKeys(a)) - {a.uuid};
    var ms1 := Prune(t.members, {}, purged);
    var ms2 := Prune(ms1, {}, {a.uuid});
    GroupsOfConcat(ms2, Links(a.uuid, a.groups), u);
    LinksAre(a.uuid, a.groups, u);
    PruneRows(t.members, {}, purged, g, u);
    PruneRows(ms1, {}, {a.uuid}, g, u);
  }

  lemma {:induction false} SaveRows(cfg: Config, t: Tables, tok: UserToken, at: int, g: string, u: string)
    requires cfg.fk && Referenced(t) && u in Save(cfg, t, tok, at).accounts
    ensures Rows(Save(cfg, t, tok, at).members, g, u) ==
            if u == tok.uuid then multiset(Uuids(tok.groups))[g]
            else if OustedBy(t.groups, tok.groups, g) then 0 else Rows(t.members, g, u)
  {
    var e := StoredExpiry(cfg, at);
    PutGroupsRows(t, tok.groups, e, g, u);
    PutAccountRows(PutGroups(t, true, tok.groups, e), tok, e, g, u);
  }

  lemma {:induction false} StoreGroupRows(t: Tables, c: GroupToken, expiry: int, g: string, u: string)
    ensures Rows(PutGroup(t, true, c, expiry).members, g, u) ==
            if OustedBy(t.groups, [c], g) then 0 else Rows(t.members, g, u)
  {
    PruneRows(t.members, Displaced(t.groups, c.uuid, GroupKeys(c)), {}, g, u);
    assert OustedBy(t.groups, [c], g) <==> Ousts(t.groups, [c][0], g);
  }

  lemma {:induction false} DropGroupRows(t: Tables, h: string, g: string, u: string)
    requires Referenced(t)
    ensures Rows(DelGroup(t, true, h).members, g, u) == if h == g then 0 else Rows(t.members, g, u)
  {
    PruneRows(t.members, t.groups.Keys * {h}, {}, g, u);
    RowsAre(t.members, g, u);
  }

  lemma {:induction false} NothingOusts(t: Tables, g: string)
    ensures !OustedBy(t.groups, [], g)
  {
  }

  // The rows of account u in group g after an effect, u being there afterwards.
  ghost function RowsAfter(t: Tables, eff: Effect, g: string, u: string): nat {
    if WritesUser(eff, u) then multiset(Uuids(eff.tok.groups))[g]
    else if Takes(t, eff, g) then 0 else Rows(t.members, g, u)
  }

  lemma {:induction false} SavedRows(cfg: Config, t: Tables, eff: Effect, g: string, u: string)
    requires cfg.fk && Referenced(t) && u in Effected(cfg, t, eff).accounts && eff.Saves()
    ensures Rows(Effected(cfg, t, eff).members, g, u) == RowsAfter(t, eff, g, u)
  {
    SameMembers(cfg, t, eff, u);
    SaveRows(cfg, t, eff.tok, eff.at, g, u);
  }

  // Storing the password as well changes no membership.
  lemma {:induction false} SameMembers(cfg: Config, t: Tables, eff: Effect, u: string)
    requires eff.Saves() && u in Effected(cfg, t, eff).accounts
    ensures var saved := Save(cfg, t, eff.tok, eff.at);
            Effected(cfg, t, eff).members == saved.members && u in saved.accounts
  {
    var saved := Save(cfg, t, eff.tok, eff.at);
    if eff.AcceptsCred? {
      SetPasswordKeepsRows(saved.accounts, eff.tok.uuid, eff.cred);
    }
  }

  lemma {:induction false} StoredGroupRows(cfg: Config, t: Tables, eff: Effect, g: string, u: string)
    requires cfg.fk && eff.StoresGroup?
    ensures Rows(Effected(cfg, t, eff).members, g, u) == RowsAfter(t, eff, g, u)
  {
    StoreGroupRows(t, eff.group, StoredExpiry(cfg, eff.at), g, u);
  }

  lemma {:induction false} DroppedUserRows(cfg: Config, t: Tables, eff: Effect, g: string, u: string)
    requires cfg.fk && u in Effected(cfg, t, eff).accounts && eff.DropsUser?
    ensures Rows(Effected(cfg, t, eff).members, g, u) == RowsAfter(t, eff, g, u)
  {
    NothingOusts(t, g);
    PruneRows(t.members, {}, t.accounts.Keys * {eff.uuid}, g, u);
  }

  lemma {:induction false} DroppedGroupRows(cfg: Config, t: Tables, eff: Effect, g: string, u: string)
    requires cfg.fk && Referenced(t) && eff.DropsGroup?
    ensures Rows(Effected(cfg, t, eff).members, g, u) == RowsAfter(t, eff, g, u)
  {
    NothingOusts(t, g);
    DropGroupRows(t, eff.uuid, g, u);
  }

  lemma {:induction false} OtherRows(cfg: Config, t: Tables, eff: Effect, g: string, u: string)
    requires u in Effected(cfg, t, eff).accounts && (eff.Nothing? || eff.Clears? || eff.Expires?)
    ensures Rows(Effected(cfg, t, eff).members, g, u) == RowsAfter(t, eff, g, u)
  {
    NothingOusts(t, g);
  }

  lemma {:induction false} EffectRows(cfg: Config, t: Tables, eff: Effect, g: string, u: string)
    requires cfg.fk && Referenced(t) && u in Effected(cfg, t, eff).accounts
    ensures Rows(Effected(cfg, t, eff).members, g, u) == RowsAfter(t, eff, g, u)
  {
    if eff.Saves() {
      SavedRows(cfg, t, eff, g, u);
    } else if eff.StoresGroup? {
      StoredGroupRows(cfg, t, eff, g, u);
    } else if eff.DropsUser? {
      DroppedUserRows(cfg, t, eff, g, u);
    } else if eff.DropsGroup? {
      DroppedGroupRows(cfg, t, eff, g, u);
    } else {
      OtherRows(cfg, t, eff, g, u);
    }
  }

  lemma {:induction false} StepRows(r: Run, i: nat, g: string, u: string)
    requires IsRun(r) && r.cfg.fk && i < |r.events| && u in r.states[i + 1].tables.accounts
    ensures RowsAt(r, i + 1, g, u) == RowsAfter(r.states[i].tables, r.effects[i], g, u)
  {
    assert Linked(r, i);
    RunSound(r, i);
    TablesFollow(r.cfg, r.states[i], r.events[i]);
    EffectRows(r.cfg, r.states[i].tables, r.effects[i], g, u);
  }

  ghost function RowsAt(r: Run, i: int, g: string, u: string): nat
    requires 0 <= i < |r.states|
  {
    Rows(r.states[i].tables.members, g, u)
  }

  ghost predicate TakenAt(r: Run, i: int, g: string)
    requires IsRun(r) && 0 <= i < |r.events|
  {
    Takes(r.states[i].tables, r.effects[i], g)
  }

  // No event after j and before state k took the members out of g.
  ghost predicate Untaken(r: Run, j: int, k: int, g: string)
    requires IsRun(r) && 0 <= j && k <= |r.events|
  {
    forall i | j < i < k :: !TakenAt(r, i, g)
  }

  // What is left, at state k, of the n rows that event j put in.
  ghost function Remaining(r: Run, j: int, k: int, g: string, n: nat): nat
    requires IsRun(r) && 0 <= j < k <= |r.events|
    decreases k
  {
    if k == j + 1 then n else if TakenAt(r, k - 1, g) then 0 else Remaining(r, j, k - 1, g, n)
  }

  lemma {:induction false} RemainingIs(r: Run, j: int, k: int, g: string, n: nat)
    requires IsRun(r) && 0 <= j < k <= |r.events|
    ensures Remaining(r, j, k, g, n) == if Untaken(r, j, k, g) then n else 0
    decreases k
  {
    if k > j + 1 {
      RemainingIs(r, j, k - 1, g, n);
    }
  }

  lemma {:induction false} RowsKept(r: Run, i: nat, g: string, u: string)
    requires IsRun(r) && r.cfg.fk && i < |r.events| && u in r.states[i + 1].tables.accounts
    requires !WritesUser(r.effects[i], u)
    ensures RowsAt(r, i + 1, g, u) == if TakenAt(r, i, g) then 0 else RowsAt(r, i, g, u)
  {
    StepRows(r, i, g, u);
  }

  lemma {:induction false} RowsWritten(r: Run, i: nat, g: string, u: string)
    requires IsRun(r) && r.cfg.fk && i < |r.events| && u in r.states[i + 1].tables.accounts
    requires WritesUser(r.effects[i], u)
    ensures RowsAt(r, i + 1, g, u) == multiset(Uuids(r.effects[i].tok.groups))[g]
  {
    StepRows(r, i, g, u);
  }

  // The account was stored by event j, not again, and has stayed.
  ghost predicate Since(r: Run, j: int, k: int, u: string)
    requires IsRun(r) && 0 <= k < |r.states|
  {
    && 0 <= j < k && WritesUser(r.effects[j], u)
    && (forall i | j < i < k :: !WritesUser(r.effects[i], u))
    && (forall i | j < i <= k :: u in r.states[i].tables.accounts)
  }

  lemma {:induction false} SinceBefore(r: Run, j: int, k: nat, u: string)
    requires IsRun(r) && k < |r.states| && Since(r, j, k, u) && k > j + 1
    ensures Since(r, j, k - 1, u) && u in r.states[k].tables.accounts && !WritesUser(r.effects[k - 1], u)
  {
  }

  // How many rows the token stored by event j asked for.
  ghost function Asked(r: Run, j: int, g: string): nat
    requires 0 <= j < |r.effects| && r.effects[j].Saves()
  {
    multiset(Uuids(r.effects[j].tok.groups))[g]
  }

  lemma {:induction false} OneMoreStep(r: Run, j: nat, k: nat, g: string, u: string, n: nat)
    requires IsRun(r) && r.cfg.fk && j < k < |r.events| && RowsAt(r, k, g, u) == Remaining(r, j, k, g, n)
    requires u in r.states[k + 1].tables.accounts && !WritesUser(r.effects[k], u)
    ensures RowsAt(r, k + 1, g, u) == Remaining(r, j, k + 1, g, n)
  {
    RowsKept(r, k, g, u);
  }

  lemma {:induction false} RowsSince(r: Run, j: nat, k: nat, g: string, u: string)
    requires IsRun(r) && r.cfg.fk && k < |r.states| && Since(r, j, k, u)
    ensures RowsAt(r, k, g, u) == Remaining(r, j, k, g, Asked(r, j, g))
  {
    if k == j + 1 {
      RowsWritten(r, j, g, u);
    } else {
      var m := k - 1;
      SinceBefore(r, j, k, u);
      RowsSince(r, j, m, g, u);
      OneMoreStep(r, j, m, g, u, Asked(r, j, g));
    }
  }

  // Over every run with foreign keys enforced: a cached account is answered for a group as
  // often as its token lists it if no effect since it was stored took the members out of
  // that group, and otherwise not at all.
  lemma {:induction false} EnforcedMembershipIff(r: Run, k: nat, g: string, tok: UserToken) returns (j: int)
    requires IsRun(r) && r.cfg.fk && k < |r.states| && Holds(r.states[k].tables, tok)
    ensures UserFrom(r, k, tok.uuid, j)
    ensures var t := r.states[k].tables;
            multiset(Join(t.accounts, t.members, g))[tok] ==
            if Untaken(r, j, k, g) then multiset(Uuids(tok.groups))[g] else 0
  {
    j := UserOrigin(r, k, tok.uuid);
    RunSound(r, k);
    JoinCount(r.states[k].tables, r.states[k].tables.members, g, tok);
    RowsSince(r, j, k, g, tok.uuid);
    RemainingIs(r, j, k, g, multiset(Uuids(tok.groups))[g]);
  }

  // Storing one user takes every other account out of every group it lists.
  lemma {:induction false} SharedGroupLost(r: Run, i: nat, g: string, tok: UserToken)
    requires IsRun(r) && r.cfg.fk && i < |r.events|
    requires r.effects[i].Saves() && Lists(r.effects[i].tok.groups, g) && tok.uuid != r.effects[i].tok.uuid
    ensures tok !in Join(r.states[i + 1].tables.accounts, r.states[i + 1].tables.members, g)
  {
    var t, t' := r.states[i].tables, r.states[i + 1].tables;
    RunSound(r, i);
    RunSound(r, i + 1);
    JoinCount(t', t'.members, g, tok);
    if Holds(t', tok) {
      RowsKept(r, i, g, tok.uuid);
      RowsAre(t.members, g, tok.uuid);
      var n :| 0 <= n < |r.effects[i].tok.groups| && r.effects[i].tok.groups[n].uuid == g;
      assert g in t.groups ==> Ousts(t.groups, Carried(r.effects[i])[n], g);
    }
  }

  // ------------------------------------------- a run of two users that share a group

  const SHARED := GroupToken("g", "gs", "gu", 10)
  const FIRST := UserToken("a", "as", "", 1, "au", Some(""), [SHARED], [], true)
  const SECOND := UserToken("b", "bs", "", 2, "bu", Some(""), [SHARED], [], true)
  const CFG := Config(1, "", UidName, true)

  function Fetch(tok: UserToken): Event {
    Event(LookupUser(Name(tok.name)),
          Env(0, 0, 0, 0, true, Found(tok), Failed(OtherClient), Failed(OtherClient), true),
          Faults(false, false, false))
  }

  // A lookup of a user that is not cached, while Online, stores the server's reply.
  lemma {:induction false} FetchStores(st: State, tok: UserToken)
    requires st.mode == Online && st.nx == [] && Find(st.tables.accounts, Name(tok.name)) == Ok(None)
    requires tok.groups == [SHARED] && tok.shell == Some("")
    ensures EffectOf(CFG, st, Fetch(tok)) == StoresUser(tok, 0)
    ensures Next(CFG, st, Fetch(tok)).mode == Online && Next(CFG, st, Fetch(tok)).nx == []
    ensures Next(CFG, st, Fetch(tok)).tables == Save(CFG, st.tables, tok, 0)
  {
    var e := Fetch(tok);
    assert Asks(st, e) && WithShell(CFG, tok, true) == tok;
    assert Coherent(tok.groups);
    SaveCommitsIff(CFG, st.tables, tok, 0, false);
    UserShape(CFG, st, Name(tok.name), e);
    UserFollows(CFG, st, Name(tok.name), e);
  }

  const NOW0 := State(EMPTY, Online, [])
  const T1 := Save(CFG, EMPTY, FIRST, 0)
  const T2 := Save(CFG, T1, SECOND, 0)

  const LOST := Run(CFG, [NOW0, State(T1, Online, []), State(T2, Online, [])],
                    [Fetch(FIRST), Fetch(SECOND)], [StoresUser(FIRST, 0), StoresUser(SECOND, 0)])

  lemma {:induction false} AfterFirst()
    ensures T1.accounts == map["au" := Row(UserKeys(FIRST), None, FIRST, 1)]
    ensures Find(T1.accounts, Name("b")) == Ok(None)
  {
    PutGroupsAccounts(EMPTY, true, FIRST.groups, 1);
    assert T1.accounts == map["au" := Row(UserKeys(FIRST), None, FIRST, 1)];
    assert !Matches(T1.accounts, "au", Name("b"));
  }

  lemma {:induction false} AfterSecond()
    ensures Holds(T2, FIRST)
  {
    AfterFirst();
    PutGroupsAccounts(T1, true, SECOND.groups, 1);
    assert !Clash(UserKeys(FIRST), UserKeys(SECOND));
    assert "au" in DeleteClashing(T1.accounts, "bu", UserKeys(SECOND));
  }

  lemma {:induction false} FirstFetch()
    ensures Linked(LOST, 0)
  {
    FetchStores(NOW0, FIRST);
  }

  lemma {:induction false} SecondFetch()
    ensures Linked(LOST, 1)
  {
    AfterFirst();
    FetchStores(State(T1, Online, []), SECOND);
  }

  lemma {:induction false} LostIsRun()
    ensures IsRun(LOST) && Timed(LOST)
  {
    FirstFetch();
    SecondFetch();
  }

  // Two users that share a group, fetched one after the other: the first one's cached token
  // lists the group, and yet the group is answered without.
  lemma {:induction false} MemberLostRun()
    ensures IsRun(LOST) && Timed(LOST) && SHARED in FIRST.groups
    ensures Holds(LOST.states[2].tables, FIRST)
    ensures FIRST !in Join(LOST.states[2].tables.accounts, LOST.states[2].tables.members, SHARED.uuid)
  {
    LostIsRun();
    AfterSecond();
    assert SECOND.groups[0].uuid == SHARED.uuid;
    SharedGroupLost(LOST, 1, SHARED.uuid, FIRST);
  }
}
