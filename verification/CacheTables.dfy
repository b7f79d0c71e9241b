/** The three tables of the Unix cache and what each operation of a transaction does
    to them, with foreign-key enforcement as a parameter `fk`. */
module CacheTables {
  import opened Prelude
  import opened KeyedTable

  datatype GroupToken = GroupToken(name: string, spn: string, uuid: string, gidnumber: nat)

  datatype UserToken = UserToken(
    name: string, spn: string, displayname: string, gidnumber: nat, uuid: string,
    shell: Option<string>, groups: seq<GroupToken>, sshkeys: seq<string>, valid: bool)

  // A row of memberof_t.
  datatype Member = Member(g: string, a: string)

  datatype Tables = Tables(accounts: Table<UserToken>, groups: Table<GroupToken>, members: seq<Member>)

  const EMPTY := Tables(map[], map[], [])
  const I64_MAX: nat := 0x7fff_ffff_ffff_ffff

  function UserKeys(t: UserToken): Keys { Keys(t.name, t.spn, t.gidnumber) }

  function GroupKeys(g: GroupToken): Keys { Keys(g.name, g.spn, g.gidnumber) }

  // The member rows left when rows of groups gs and of accounts us go.
  function Prune(ms: seq<Member>, gs: set<string>, us: set<string>): seq<Member> {
    if ms == [] then []
    else if ms[0].g in gs || ms[0].a in us then Prune(ms[1..], gs, us)
    else [ms[0]] + Prune(ms[1..], gs, us)
  }

  function Links(u: string, gs: seq<GroupToken>): seq<Member> {
    if gs == [] then [] else [Member(gs[0].uuid, u)] + Links(u, gs[1..])
  }

  function Uuids(gs: seq<GroupToken>): seq<string> {
    if gs == [] then [] else [gs[0].uuid] + Uuids(gs[1..])
  }

  // ON DELETE CASCADE, when foreign keys are enforced.
  function Cascade(fk: bool, ms: seq<Member>, gs: set<string>, us: set<string>): seq<Member> {
    if fk then Prune(ms, gs, us) else ms
  }

  function PutAccount(t: Tables, fk: bool, a: UserToken, expiry: int): Tables {
    var purged := Displaced(t.accounts, a.uuid, UserKeys(a)) - {a.uuid};
    Tables(Put(t.accounts, a.uuid, UserKeys(a), a, expiry),
           t.groups,
           Prune(Cascade(fk, t.members, {}, purged), {}, {a.uuid}) + Links(a.uuid, a.groups))
  }

  function PutGroup(t: Tables, fk: bool, g: GroupToken, expiry: int): Tables {
    Tables(t.accounts,
           ReplaceRow(t.groups, g.uuid, GroupKeys(g), g, expiry),
           Cascade(fk, t.members, Displaced(t.groups, g.uuid, GroupKeys(g)), {}))
  }

  function PutGroups(t: Tables, fk: bool, gs: seq<GroupToken>, expiry: int): Tables {
    if gs == [] then t
    else PutGroup(PutGroups(t, fk, gs[..|gs| - 1], expiry), fk, gs[|gs| - 1], expiry)
  }

  // With foreign keys enforced a membership row needs its group row.
  predicate Linkable(t: Tables, fk: bool, gs: seq<GroupToken>) {
    fk ==> forall i | 0 <= i < |gs| :: gs[i].uuid in t.groups
  }

  function DelAccount(t: Tables, fk: bool, u: string): Tables {
    Tables(t.accounts - {u}, t.groups, Cascade(fk, t.members, {}, t.accounts.Keys * {u}))
  }

  function DelGroup(t: Tables, fk: bool, u: string): Tables {
    Tables(t.accounts, t.groups - {u}, Cascade(fk, t.members, t.groups.Keys * {u}, {}))
  }

  function ClearTables(t: Tables, fk: bool): Tables {
    Tables(map[], map[], Cascade(fk, Cascade(fk, t.members, t.groups.Keys, {}), {}, t.accounts.Keys))
  }

  function InvalidateTables(t: Tables): Tables {
    t.(accounts := ExpireAll(t.accounts), groups := ExpireAll(t.groups))
  }

  function PutPassword(t: Tables, u: string, cred: string): Tables {
    t.(accounts := SetPassword(t.accounts, u, cred))
  }

  predicate PasswordOk(t: Tables, u: string, cred: string) {
    u in t.accounts && t.accounts[u].password == Some(cred)
  }

  // -------------------------------------------------- the invariant of the tables

  // Group uuids of the member rows of account u, in order.
  function GroupsOf(ms: seq<Member>, u: string): seq<string> {
    if ms == [] then []
    else if ms[0].a == u then [ms[0].g] + GroupsOf(ms[1..], u)
    else GroupsOf(ms[1..], u)
  }

  // Member rows agree with the cached token: exactly without enforcement, at most
  // with it, where a replaced group row takes its memberships along.
  ghost predicate Agrees(t: Tables, fk: bool, u: string)
    requires u in t.accounts
  {
    var listed, stored := Uuids(t.accounts[u].token.groups), GroupsOf(t.members, u);
    if fk then multiset(stored) <= multiset(listed) else stored == listed
  }

  ghost predicate Referenced(t: Tables) {
    forall m | m in t.members :: m.g in t.groups && m.a in t.accounts
  }

  ghost predicate AccountRowOk(t: Tables, u: string)
    requires u in t.accounts
  {
    var row := t.accounts[u];
    row.token.uuid == u && row.keys == UserKeys(row.token) && row.expiry >= 0
  }

  ghost predicate GroupRowOk(t: Tables, u: string)
    requires u in t.groups
  {
    var row := t.groups[u];
    row.token.uuid == u && row.keys == GroupKeys(row.token) && row.expiry >= 0
  }

  ghost predicate Sound(t: Tables, fk: bool) {
    && Unique(t.accounts) && Unique(t.groups) && NoPasswords(t.groups)
    && (forall u | u in t.accounts :: AccountRowOk(t, u))
    && (forall u | u in t.groups :: GroupRowOk(t, u))
    && (forall u | u in t.accounts :: Agrees(t, fk, u))
    && (fk ==> Referenced(t))
  }

  lemma {:induction false} PruneMembers(ms: seq<Member>, gs: set<string>, us: set<string>)
    ensures forall m :: m in Prune(ms, gs, us) <==> m in ms && m.g !in gs && m.a !in us
  {
    if ms != [] {
      PruneMembers(ms[1..], gs, us);
      assert ms == [ms[0]] + ms[1..];
    }
  }

  lemma {:induction false} PruneGroupsOf(ms: seq<Member>, gs: set<string>, us: set<string>, u: string)
    ensures u in us ==> GroupsOf(Prune(ms, gs, us), u) == []
    ensures u !in us && gs == {} ==> GroupsOf(Prune(ms, gs, us), u) == GroupsOf(ms, u)
    ensures multiset(GroupsOf(Prune(ms, gs, us), u)) <= multiset(GroupsOf(ms, u))
  {
    if ms != [] {
      PruneGroupsOf(ms[1..], gs, us, u);
      if !(ms[0].g in gs || ms[0].a in us) {
        var rest := Prune(ms[1..], gs, us);
        assert ([ms[0]] + rest)[1..] == rest;
      }
    }
  }

  lemma {:induction false} GroupsOfConcat(a: seq<Member>, b: seq<Member>, u: string)
    ensures GroupsOf(a + b, u) == GroupsOf(a, u) + GroupsOf(b, u)
  {
    if a == [] {
      assert a + b == b;
    } else {
      GroupsOfConcat(a[1..], b, u);
      assert (a + b)[1..] == a[1..] + b;
    }
  }

  lemma {:induction false} LinksAre(v: string, gs: seq<GroupToken>, u: string)
    ensures GroupsOf(Links(v, gs), u) == if u == v then Uuids(gs) else []
    ensures forall m | m in Links(v, gs) :: m.a == v && exists i :: 0 <= i < |gs| && gs[i].uuid == m.g
  {
    if gs != [] {
      LinksAre(v, gs[1..], u);
      var rest := Links(v, gs[1..]);
      assert ([Member(gs[0].uuid, v)] + rest)[1..] == rest;
      forall m | m in Links(v, gs)
        ensures m.a == v && exists i :: 0 <= i < |gs| && gs[i].uuid == m.g
      {
        if m in rest {
          var i :| 0 <= i < |gs[1..]| && gs[1..][i].uuid == m.g;
          assert gs[i + 1].uuid == m.g;
        } else {
          assert gs[0].uuid == m.g;
        }
      }
    }
  }

  // ------------------------------------------------------ each operation keeps it

  lemma {:induction false} PutAccountSound(t: Tables, fk: bool, a: UserToken, expiry: int)
    requires Sound(t, fk) && expiry >= 0 && Linkable(t, fk, a.groups)
    ensures Sound(PutAccount(t, fk, a, expiry), fk)
  {
    var t' := PutAccount(t, fk, a, expiry);
    var purged := Displaced(t.accounts, a.uuid, UserKeys(a)) - {a.uuid};
    var ms1 := Cascade(fk, t.members, {}, purged);
    var ms2 := Prune(ms1, {}, {a.uuid});
    PutKeepsUnique(t.accounts, a.uuid, UserKeys(a), a, expiry);
    forall u | u in t'.accounts ensures AccountRowOk(t', u) {
      assert u == a.uuid || AccountRowOk(t, u);
    }
    forall u | u in t'.groups ensures GroupRowOk(t', u) {
      assert GroupRowOk(t, u);
    }
    forall u | u in t'.accounts ensures Agrees(t', fk, u) {
      GroupsOfConcat(ms2, Links(a.uuid, a.groups), u);
      LinksAre(a.uuid, a.groups, u);
      PruneGroupsOf(ms1, {}, {a.uuid}, u);
      PruneGroupsOf(t.members, {}, purged, u);
      if u != a.uuid {
        assert Agrees(t, fk, u);
      }
    }
    if fk {
      PruneMembers(t.members, {}, purged);
      PruneMembers(ms1, {}, {a.uuid});
      LinksAre(a.uuid, a.groups, a.uuid);
    }
  }

  lemma {:induction false} PutGroupSound(t: Tables, fk: bool, g: GroupToken, expiry: int)
    requires Sound(t, fk) && expiry >= 0
    ensures Sound(PutGroup(t, fk, g, expiry), fk)
  {
    var t' := PutGroup(t, fk, g, expiry);
    var gone := Displaced(t.groups, g.uuid, GroupKeys(g));
    PutKeepsUnique(t.groups, g.uuid, GroupKeys(g), g, expiry);
    ReplaceRefinesPut(t.groups, g.uuid, GroupKeys(g), g, expiry);
    forall u | u in t'.accounts ensures AccountRowOk(t', u) && Agrees(t', fk, u) {
      assert AccountRowOk(t, u) && Agrees(t, fk, u);
      PruneGroupsOf(t.members, gone, {}, u);
    }
    forall u | u in t'.groups ensures GroupRowOk(t', u) {
      assert u == g.uuid || GroupRowOk(t, u);
    }
    PruneMembers(t.members, gone, {});
  }

  lemma {:induction false} PutGroupsAccounts(t: Tables, fk: bool, gs: seq<GroupToken>, expiry: int)
    ensures PutGroups(t, fk, gs, expiry).accounts == t.accounts
  {
    if gs != [] {
      PutGroupsAccounts(t, fk, gs[..|gs| - 1], expiry);
    }
  }

  lemma {:induction false} PutGroupsSound(t: Tables, fk: bool, gs: seq<GroupToken>, expiry: int)
    requires Sound(t, fk) && expiry >= 0
    ensures Sound(PutGroups(t, fk, gs, expiry), fk)
    ensures PutGroups(t, fk, gs, expiry).accounts == t.accounts
  {
    PutGroupsAccounts(t, fk, gs, expiry);
    if gs != [] {
      PutGroupsSound(t, fk, gs[..|gs| - 1], expiry);
      PutGroupSound(PutGroups(t, fk, gs[..|gs| - 1], expiry), fk, gs[|gs| - 1], expiry);
    }
  }

  lemma {:induction false} DelAccountSound(t: Tables, fk: bool, u: string)
    requires Sound(t, fk)
    ensures Sound(DelAccount(t, fk, u), fk)
  {
    var t' := DelAccount(t, fk, u);
    forall v | v in t'.accounts ensures AccountRowOk(t', v) && Agrees(t', fk, v) {
      assert AccountRowOk(t, v) && Agrees(t, fk, v);
      PruneGroupsOf(t.members, {}, t.accounts.Keys * {u}, v);
    }
    forall v | v in t'.groups ensures GroupRowOk(t', v) {
      assert GroupRowOk(t, v);
    }
    PruneMembers(t.members, {}, t.accounts.Keys * {u});
  }

  lemma {:induction false} DelGroupSound(t: Tables, fk: bool, u: string)
    requires Sound(t, fk)
    ensures Sound(DelGroup(t, fk, u), fk)
  {
    var t' := DelGroup(t, fk, u);
    forall v | v in t'.accounts ensures AccountRowOk(t', v) && Agrees(t', fk, v) {
      assert AccountRowOk(t, v) && Agrees(t, fk, v);
      PruneGroupsOf(t.members, t.groups.Keys * {u}, {}, v);
    }
    forall v | v in t'.groups ensures GroupRowOk(t', v) {
      assert GroupRowOk(t, v);
    }
    PruneMembers(t.members, t.groups.Keys * {u}, {});
  }

  lemma {:induction false} ClearSound(t: Tables, fk: bool)
    requires Sound(t, fk)
    ensures Sound(ClearTables(t, fk), fk)
  {
    var ms := Cascade(fk, t.members, t.groups.Keys, {});
    PruneMembers(t.members, t.groups.Keys, {});
    PruneMembers(ms, {}, t.accounts.Keys);
  }

  lemma {:induction false} InvalidateSound(t: Tables, fk: bool)
    requires Sound(t, fk)
    ensures Sound(InvalidateTables(t), fk)
  {
    var t' := InvalidateTables(t);
    forall u | u in t'.accounts ensures AccountRowOk(t', u) && Agrees(t', fk, u) {
      assert AccountRowOk(t, u) && Agrees(t, fk, u);
    }
    forall u | u in t'.groups ensures GroupRowOk(t', u) {
      assert GroupRowOk(t, u);
    }
  }

  lemma {:induction false} PasswordSound(t: Tables, fk: bool, u: string, cred: string)
    requires Sound(t, fk)
    ensures Sound(PutPassword(t, u, cred), fk)
  {
    var t' := PutPassword(t, u, cred);
    SetPasswordKeepsRows(t.accounts, u, cred);
    assert Unique(t'.accounts);
    forall v | v in t'.accounts ensures AccountRowOk(t', v) && Agrees(t', fk, v) {
      assert AccountRowOk(t, v) && Agrees(t, fk, v);
    }
    forall v | v in t'.groups ensures GroupRowOk(t', v) {
      assert GroupRowOk(t, v);
    }
  }
}
