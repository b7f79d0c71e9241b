/** What the tables promise about group membership, and when a user token with its
    groups can be stored at all under foreign-key enforcement. */
module Memberships {
  import opened KeyedTable
  import opened CacheTables

  // SELECT account_t.token FROM account_t, memberof_t WHERE uuid = a_uuid AND g_uuid = g
  function Join(accounts: Table<UserToken>, ms: seq<Member>, g: string): seq<UserToken> {
    if ms == [] then []
    else if ms[0].g == g && ms[0].a in accounts then [accounts[ms[0].a].token] + Join(accounts, ms[1..], g)
    else Join(accounts, ms[1..], g)
  }

  predicate Holds(t: Tables, tok: UserToken) {
    tok.uuid in t.accounts && t.accounts[tok.uuid].token == tok
  }

  lemma {:induction false} JoinCount(t: Tables, ms: seq<Member>, g: string, tok: UserToken)
    requires forall u | u in t.accounts :: AccountRowOk(t, u)
    ensures multiset(Join(t.accounts, ms, g))[tok] ==
            if Holds(t, tok) then multiset(GroupsOf(ms, tok.uuid))[g] else 0
  {
    if ms != [] {
      JoinCount(t, ms[1..], g, tok);
      if ms[0].a in t.accounts {
        assert AccountRowOk(t, ms[0].a);
      }
    }
  }

  // The answer for group g, counted: without enforcement a cached token is returned
  // as often as it lists g and nothing else is returned; with it, at most that often.
  lemma {:induction false} MembershipAgreement(t: Tables, fk: bool, g: string, tok: UserToken)
    requires Sound(t, fk)
    ensures var answered := multiset(Join(t.accounts, t.members, g))[tok];
            var listed := multiset(Uuids(tok.groups))[g];
            && (!Holds(t, tok) ==> answered == 0)
            && (Holds(t, tok) ==> answered <= listed)
            && (Holds(t, tok) && !fk ==> answered == listed)
  {
    JoinCount(t, t.members, g, tok);
    if Holds(t, tok) {
      assert Agrees(t, fk, tok.uuid);
    }
  }

  lemma {:induction false} UuidsAre(gs: seq<GroupToken>)
    ensures |Uuids(gs)| == |gs| && forall i | 0 <= i < |gs| :: Uuids(gs)[i] == gs[i].uuid
  {
    if gs != [] {
      UuidsAre(gs[1..]);
    }
  }

  // Without enforcement: answered exactly if cached and listing the group.
  lemma {:induction false} UnenforcedMemberIff(t: Tables, g: string, tok: UserToken)
    requires Sound(t, false)
    ensures tok in Join(t.accounts, t.members, g) <==>
            Holds(t, tok) && exists i :: 0 <= i < |tok.groups| && tok.groups[i].uuid == g
  {
    MembershipAgreement(t, false, g, tok);
    UuidsAre(tok.groups);
    var us := Uuids(tok.groups);
    assert g in us <==> multiset(us)[g] > 0;
    if i :| 0 <= i < |us| && us[i] == g {
      assert tok.groups[i].uuid == g;
    }
    if i :| 0 <= i < |tok.groups| && tok.groups[i].uuid == g {
      assert us[i] == g;
    }
  }

  // ----------------------------------------------- when replacing a group loses rows

  // The membership rows of u are exactly the groups its token lists.
  ghost predicate Exact(t: Tables, u: string)
    requires u in t.accounts
  {
    GroupsOf(t.members, u) == Uuids(t.accounts[u].token.groups)
  }

  lemma {:induction false} PruneShortens(ms: seq<Member>, gs: set<string>, u: string)
    ensures var kept := GroupsOf(Prune(ms, gs, {}), u);
            && |kept| <= |GroupsOf(ms, u)|
            && (kept == GroupsOf(ms, u) <==> forall g | g in gs :: Member(g, u) !in ms)
  {
    if ms != [] {
      PruneShortens(ms[1..], gs, u);
      assert ms == [ms[0]] + ms[1..];
      var rest := Prune(ms[1..], gs, {});
      if ms[0].g in gs {
        if ms[0].a == u {
          assert ms[0] == Member(ms[0].g, u);
        }
      } else {
        assert ([ms[0]] + rest)[1..] == rest;
        assert forall g | g in gs :: Member(g, u) in ms <==> Member(g, u) in ms[1..];
        var kept, all := GroupsOf(rest, u), GroupsOf(ms[1..], u);
        assert ([ms[0].g] + kept)[1..] == kept && ([ms[0].g] + all)[1..] == all;
      }
    }
  }

  // Storing a group keeps an account's memberships exact if and only if foreign keys
  // are off or the account is in none of the groups whose rows give way, the group's
  // own former row included.
  lemma {:induction false} GroupWriteKeepsExact(t: Tables, fk: bool, g: GroupToken, expiry: int, u: string)
    requires u in t.accounts && Exact(t, u)
    ensures Exact(PutGroup(t, fk, g, expiry), u) <==>
            (fk ==> forall v | v in Displaced(t.groups, g.uuid, GroupKeys(g)) :: Member(v, u) !in t.members)
  {
    PruneShortens(t.members, Displaced(t.groups, g.uuid, GroupKeys(g)), u);
  }

  // ------------------------------------------------ which user tokens can be stored

  ghost predicate LastOf(gs: seq<GroupToken>, i: int) {
    0 <= i < |gs| && forall j | i < j < |gs| :: gs[j].uuid != gs[i].uuid
  }

  // No group of the list is pushed out by a later one.
  ghost predicate Coherent(gs: seq<GroupToken>) {
    forall i, j | LastOf(gs, i) && i < j < |gs| :: !Clash(GroupKeys(gs[i]), GroupKeys(gs[j]))
  }

  lemma {:induction false} GroupSurvives(t: Tables, fk: bool, gs: seq<GroupToken>, expiry: int, i: int)
    requires LastOf(gs, i)
    ensures var groups := PutGroups(t, fk, gs, expiry).groups;
            && (gs[i].uuid in groups <==> forall j | i < j < |gs| :: !Clash(GroupKeys(gs[i]), GroupKeys(gs[j])))
            && (gs[i].uuid in groups ==> groups[gs[i].uuid].keys == GroupKeys(gs[i]))
  {
    if i < |gs| - 1 {
      var front := gs[..|gs| - 1];
      assert LastOf(front, i);
      GroupSurvives(t, fk, front, expiry, i);
      assert gs[|gs| - 1].uuid != gs[i].uuid;
      assert forall j | i < j < |front| :: front[j] == gs[j];
    }
  }

  lemma {:induction false} HasLast(gs: seq<GroupToken>, i: int) returns (k: int)
    requires 0 <= i < |gs|
    ensures LastOf(gs, k) && gs[k].uuid == gs[i].uuid
    decreases |gs| - i
  {
    if LastOf(gs, i) {
      k := i;
    } else {
      var j :| i < j < |gs| && gs[j].uuid == gs[i].uuid;
      k := HasLast(gs, j);
    }
  }

  // With enforcement, the membership inserts succeed if and only if the token's own
  // groups do not push each other out.
  lemma {:induction false} LinkableIffCoherent(t: Tables, fk: bool, gs: seq<GroupToken>, expiry: int)
    ensures Linkable(PutGroups(t, fk, gs, expiry), fk, gs) <==> (fk ==> Coherent(gs))
  {
    var t' := PutGroups(t, fk, gs, expiry);
    forall i | LastOf(gs, i)
      ensures gs[i].uuid in t'.groups <==> forall j | i < j < |gs| :: !Clash(GroupKeys(gs[i]), GroupKeys(gs[j]))
    {
      GroupSurvives(t, fk, gs, expiry, i);
    }
    if Coherent(gs) {
      forall i | 0 <= i < |gs| ensures gs[i].uuid in t'.groups {
        var k := HasLast(gs, i);
      }
    }
  }

  // A user with two groups of one name cannot be stored under enforcement, whatever is in
  // the tables.
  lemma {:induction false} SameNameGroupsRefused(t: Tables, expiry: int)
    ensures var gs := [GroupToken("g", "s", "1", 1), GroupToken("g", "t", "2", 2)];
            !Linkable(PutGroups(t, true, gs, expiry), true, gs)
  {
    var gs := [GroupToken("g", "s", "1", 1), GroupToken("g", "t", "2", 2)];
    assert LastOf(gs, 0) && Clash(GroupKeys(gs[0]), GroupKeys(gs[1]));
    LinkableIffCoherent(t, true, gs, expiry);
  }
}
