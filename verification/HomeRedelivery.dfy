/** A home-directory request delivered again after other requests: the task handler puts
    a request whose sending failed behind the ones already waiting, so the worker may
    carry out others between two deliveries of the same one. */
module HomeRedelivery {
  import opened Prelude
  import opened HomeDirectory

  // ------------------------------------------------------- when nothing is left to do

  ghost predicate AliasDone(fs: Homes, cfg: Config, name: string, alias: string) {
    Within(cfg, Clean(alias)) && Settled(fs, name, Clean(alias))
  }

  // The home is there and each alias is a link to it or something else.
  ghost predicate Done(fs: Homes, cfg: Config, info: Info) {
    var name := Clean(info.name);
    && cfg.prefixIsDir && Within(cfg, name) && Reaches(fs, name)
    && forall i | 0 <= i < |info.aliases| :: AliasDone(fs, cfg, name, info.aliases[i])
  }

  // In any tree: a delivery succeeds and changes nothing if and only if it is done.
  lemma {:induction false} NothingToDoIff(fs: Homes, cfg: Config, info: Info)
    ensures Create(fs, cfg, info) == Ok(fs) <==> Done(fs, cfg, info)
  {
    var name := Clean(info.name);
    ExistsIffReaches(fs, name);
    if Done(fs, cfg, info) {
      forall i | 0 <= i < |info.aliases|
        ensures Within(cfg, Clean(info.aliases[i])) && Settled(fs, name, Clean(info.aliases[i]))
      {
        assert AliasDone(fs, cfg, name, info.aliases[i]);
      }
      SettledAgain(fs, cfg, name, info.aliases);
    }
    if Create(fs, cfg, info) == Ok(fs) {
      var fs0 := Home(fs, cfg, name, info.gid).value;
      AliasesSettle(fs0, cfg, name, info.aliases);
      assert name in fs0 ==> name in fs;
    }
  }

  // ------------------------------------------------------------ what the worker does

  // The two changes a request makes to the tree.
  datatype Act = Make(name: string, dir: Entry) | Point(alias: string, home: string)

  function Do(fs: Homes, act: Act): Homes {
    match act
    case Make(n, dir) => fs[n := dir]
    case Point(a, home) => fs[a := Link(Sibling(home))]
  }

  function DoAll(fs: Homes, acts: seq<Act>): Homes
    decreases |acts|
  {
    if acts == [] then fs else DoAll(Do(fs, acts[0]), acts[1..])
  }

  // Sibling links can be followed from n for ever.
  ghost predicate Follows(fs: Homes, n: string, k: nat)
    decreases k
  {
    n in fs && fs[n].Link? && fs[n].target.Sibling? && (k > 0 ==> Follows(fs, fs[n].target.name, k - 1))
  }

  ghost predicate Trapped(fs: Homes, n: string) {
    forall k: nat :: Follows(fs, n, k)
  }

  // A home is made where nothing is; a name is pointed somewhere if it is new or a link
  // that works, and at a home that worked when the request began.
  ghost predicate Allowed(fs: Homes, act: Act) {
    match act
    case Make(n, dir) => n !in fs && dir.Dir?
    case Point(a, home) =>
      (a in fs ==> fs[a].Link? && Reaches(fs, a)) && (Reaches(fs, home) || Trapped(fs, home))
  }

  ghost predicate AllAllowed(fs: Homes, acts: seq<Act>)
    decreases |acts|
  {
    acts == [] || (Allowed(fs, acts[0]) && AllAllowed(Do(fs, acts[0]), acts[1..]))
  }

  function AliasActs(fs: Homes, cfg: Config, name: string, aliases: seq<string>): seq<Act>
    decreases |aliases|
  {
    if aliases == [] then []
    else
      match AliasStep(fs, cfg, name, aliases[0])
      case Err => []
      case Ok(fs') =>
        var a, rest := Clean(aliases[0]), AliasActs(fs', cfg, name, aliases[1..]);
        if Exists(fs, a) && !fs[a].Link? then rest else [Point(a, name)] + rest
  }

  function RequestActs(fs: Homes, cfg: Config, info: Info): seq<Act> {
    var name := Clean(info.name);
    if !cfg.prefixIsDir || !Within(cfg, name) then []
    else match Home(fs, cfg, name, info.gid)
      case Err => []
      case Ok(fs0) =>
        var rest := AliasActs(fs0, cfg, name, info.aliases);
        if Exists(fs, name) then rest else [Make(name, fs0[name])] + rest
  }

  // The tree after a list of requests, each done or refused, and the changes made.
  function Serve(fs: Homes, cfg: Config, reqs: seq<Info>): Homes
    decreases |reqs|
  {
    if reqs == [] then fs else Serve(Handled(fs, cfg, reqs[0]), cfg, reqs[1..])
  }

  function ServeActs(fs: Homes, cfg: Config, reqs: seq<Info>): seq<Act>
    decreases |reqs|
  {
    if reqs == [] then []
    else RequestActs(fs, cfg, reqs[0]) + ServeActs(Handled(fs, cfg, reqs[0]), cfg, reqs[1..])
  }

  lemma {:induction false} DoConcat(fs: Homes, a: seq<Act>, b: seq<Act>)
    ensures DoAll(fs, a + b) == DoAll(DoAll(fs, a), b)
    ensures AllAllowed(fs, a + b) <==> AllAllowed(fs, a) && AllAllowed(DoAll(fs, a), b)
    decreases |a|
  {
    if a == [] {
      assert a + b == b;
    } else {
      assert (a + b)[0] == a[0] && (a + b)[1..] == a[1..] + b;
      DoConcat(Do(fs, a[0]), a[1..], b);
    }
  }

  // ----------------------------------------------------- what a change does to a home

  // The change re-points a link on the path from n, to a home whose path comes back to
  // that link or is no good itself.
  ghost predicate Cuts(fs: Homes, act: Act, n: string) {
    && act.Point? && act.alias in fs && OnChain(fs, n, act.alias)
    && (OnChain(fs, act.home, act.alias) || !Reaches(fs, act.home))
  }

  ghost predicate Cut(fs: Homes, acts: seq<Act>, n: string)
    decreases |acts|
  {
    acts != [] && (Cuts(fs, acts[0], n) || Cut(Do(fs, acts[0]), acts[1..], n))
  }

  lemma {:induction false} TrappedIsLost(fs: Homes, n: string, k: nat)
    requires Follows(fs, n, k)
    ensures !Walk(fs, n, k)
    decreases k
  {
    if k > 0 {
      TrappedIsLost(fs, fs[n].target.name, k - 1);
    }
  }

  lemma {:induction false} TrappedNotReached(fs: Homes, n: string)
    requires Trapped(fs, n)
    ensures !Reaches(fs, n)
  {
    if k :| Walk(fs, n, k) {
      assert Follows(fs, n, k);
      TrappedIsLost(fs, n, k);
    }
  }

  lemma {:induction false} FollowsFrame(fs: Homes, n: string, a: string, e: Entry, k: nat)
    requires Follows(fs, n, k) && !Passes(fs, n, a, k)
    ensures Follows(fs[a := e], n, k)
    decreases k
  {
    if k > 0 {
      FollowsFrame(fs, fs[n].target.name, a, e, k - 1);
    }
  }

  // What is trapped stays so if no change is made on the way.
  lemma {:induction false} TrappedOffChain(fs: Homes, n: string, a: string, e: Entry)
    requires Trapped(fs, n) && !OnChain(fs, n, a)
    ensures Trapped(fs[a := e], n)
  {
    var fs' := fs[a := e];
    forall k: nat ensures Follows(fs', n, k) {
      assert Follows(fs, n, k) && !Passes(fs, n, a, k);
      FollowsFrame(fs, n, a, e, k);
    }
  }

  // Whoever can be followed past a, and then for ever, can be followed for ever.
  lemma {:induction false} FollowsThrough(fs: Homes, n: string, a: string, home: string, j: nat, k: nat)
    requires Passes(fs, n, a, j)
    requires Trapped(fs[a := Link(Sibling(home))], home)
    ensures Follows(fs[a := Link(Sibling(home))], n, k)
    decreases k
  {
    var fs' := fs[a := Link(Sibling(home))];
    if n == a {
      if k > 0 {
        assert Follows(fs', home, k - 1);
      }
    } else if k > 0 {
      FollowsThrough(fs, fs[n].target.name, a, home, j - 1, k - 1);
    }
  }

  // A link pointed back at its own path is followed for ever.
  lemma {:induction false} FollowsLoop(fs: Homes, n: string, a: string, home: string, j: nat, i: nat, k: nat)
    requires Passes(fs, n, a, j) && Passes(fs, home, a, i)
    ensures Follows(fs[a := Link(Sibling(home))], n, k)
    decreases k
  {
    if k > 0 {
      if n == a {
        FollowsLoop(fs, home, a, home, i, i, k - 1);
      } else {
        FollowsLoop(fs, fs[n].target.name, a, home, j - 1, i, k - 1);
      }
    }
  }

  lemma {:induction false} CutTraps(fs: Homes, act: Act, n: string)
    requires Allowed(fs, act) && Cuts(fs, act, n)
    ensures Trapped(Do(fs, act), n)
  {
    var a, home := act.alias, act.home;
    var j :| Passes(fs, n, a, j);
    if OnChain(fs, home, a) {
      var i :| Passes(fs, home, a, i);
      forall k: nat ensures Follows(Do(fs, act), n, k) {
        FollowsLoop(fs, n, a, home, j, i, k);
      }
    } else {
      TrappedOffChain(fs, home, a, Link(Sibling(home)));
      forall k: nat ensures Follows(Do(fs, act), n, k) {
        FollowsThrough(fs, n, a, home, j, k);
      }
    }
  }

  // Re-pointing a link on the path to a home that works and does not come back to it
  // leaves n working, if elsewhere.
  lemma {:induction false} DetourReaches(fs: Homes, act: Act, n: string)
    requires Allowed(fs, act) && act.Point? && OnChain(fs, n, act.alias)
    requires !OnChain(fs, act.home, act.alias) && Reaches(fs, act.home)
    ensures Reaches(Do(fs, act), n)
  {
    var a, home, fs' := act.alias, act.home, Do(fs, act);
    OffChain(fs, home, a, Link(Sibling(home)));
    var k: nat :| Walk(fs', home, k);
    assert Walk(fs', a, k + 1);
    var j :| Passes(fs, n, a, j);
    PassesPrefix(fs, n, a, Link(Sibling(home)), j);
    ChainReaches(fs', n, a);
  }

  // What does not exist is not on a path that works.
  lemma {:induction false} AbsentOffChain(fs: Homes, n: string, a: string)
    requires (Reaches(fs, n) || Trapped(fs, n)) && a !in fs
    ensures !OnChain(fs, n, a)
  {
    if OnChain(fs, n, a) {
      if Reaches(fs, n) {
        ChainReaches(fs, n, a);
      } else {
        var j :| Passes(fs, n, a, j);
        FollowsPast(fs, n, a, j);
      }
    }
  }

  lemma {:induction false} FollowsPast(fs: Homes, n: string, a: string, j: nat)
    requires Trapped(fs, n) && Passes(fs, n, a, j)
    ensures a in fs
    decreases j
  {
    assert Follows(fs, n, 0);
    if n != a {
      forall k: nat ensures Follows(fs, fs[n].target.name, k) {
        assert Follows(fs, n, k + 1);
      }
      FollowsPast(fs, fs[n].target.name, a, j - 1);
    }
  }

  // One change: a home that works goes on working unless the change cuts its path, and is
  // then lost; a lost one stays lost.
  lemma {:induction false} ActFate(fs: Homes, act: Act, n: string)
    requires Allowed(fs, act) && (Reaches(fs, n) || Trapped(fs, n))
    ensures var fs' := Do(fs, act);
            if Reaches(fs, n) && !Cuts(fs, act, n) then Reaches(fs', n) else Trapped(fs', n)
  {
    var a := if act.Make? then act.name else act.alias;
    var e := if act.Make? then act.dir else Link(Sibling(act.home));
    if a !in fs {
      AbsentOffChain(fs, n, a);
    }
    if OnChain(fs, n, a) {
      ChainReaches(fs, n, a);
      if Trapped(fs, n) {
        TrappedNotReached(fs, n);
      }
      if Cuts(fs, act, n) {
        CutTraps(fs, act, n);
      } else {
        DetourReaches(fs, act, n);
      }
    } else {
      OffChain(fs, n, a, e);
      if Trapped(fs, n) {
        TrappedNotReached(fs, n);
        TrappedOffChain(fs, n, a, e);
      }
    }
  }

  lemma {:induction false} Fate(fs: Homes, acts: seq<Act>, n: string)
    requires AllAllowed(fs, acts) && (Reaches(fs, n) || Trapped(fs, n))
    ensures var fs' := DoAll(fs, acts);
            if Reaches(fs, n) && !Cut(fs, acts, n) then Reaches(fs', n) else Trapped(fs', n)
    decreases |acts|
  {
    if Trapped(fs, n) {
      TrappedNotReached(fs, n);
    }
    if acts != [] {
      var fs1 := Do(fs, acts[0]);
      ActFate(fs, acts[0], n);
      if Trapped(fs1, n) {
        TrappedNotReached(fs1, n);
      }
      Fate(fs1, acts[1..], n);
    }
  }

  // ------------------------------------------------------ what changes do to an alias

  // The home that a name was last pointed at.
  function LastHome(acts: seq<Act>, a: string): Option<string> {
    if acts == [] then None
    else
      var later := LastHome(acts[1..], a);
      if later.Some? then later
      else if acts[0].Point? && acts[0].alias == a then Some(acts[0].home)
      else None
  }

  lemma {:induction false} EntryAfter(fs: Homes, acts: seq<Act>, a: string)
    requires AllAllowed(fs, acts) && a in fs
    ensures a in DoAll(fs, acts)
    ensures DoAll(fs, acts)[a] == match LastHome(acts, a) case None => fs[a] case Some(h) => Link(Sibling(h))
    decreases |acts|
  {
    if acts != [] {
      EntryAfter(Do(fs, acts[0]), acts[1..], a);
    }
  }

  // What is no link is never changed.
  lemma {:induction false} NoLinkNoPoint(fs: Homes, acts: seq<Act>, a: string)
    requires AllAllowed(fs, acts) && a in fs && !fs[a].Link?
    ensures LastHome(acts, a) == None
    decreases |acts|
  {
    if acts != [] {
      NoLinkNoPoint(Do(fs, acts[0]), acts[1..], a);
    }
  }

  lemma {:induction false} SettledAfterIff(fs: Homes, acts: seq<Act>, name: string, a: string)
    requires AllAllowed(fs, acts) && Settled(fs, name, a)
    ensures Settled(DoAll(fs, acts), name, a) <==> LastHome(acts, a) in {None, Some(name)}
  {
    EntryAfter(fs, acts, a);
    if !fs[a].Link? {
      NoLinkNoPoint(fs, acts, a);
    }
  }

  // --------------------------------------------------- requests are made of changes

  lemma {:induction false} AliasesAreActs(fs: Homes, cfg: Config, name: string, aliases: seq<string>)
    requires Reaches(fs, name) || Trapped(fs, name)
    ensures var acts := AliasActs(fs, cfg, name, aliases);
            AllAllowed(fs, acts) && DoAll(fs, acts) == AliasesLeft(fs, cfg, name, aliases)
    decreases |aliases|
  {
    if aliases != [] && AliasStep(fs, cfg, name, aliases[0]).Ok? {
      var a, fs', rest := Clean(aliases[0]), AliasStep(fs, cfg, name, aliases[0]).value, aliases[1..];
      ExistsIffReaches(fs, a);
      if Exists(fs, a) && !fs[a].Link? {
        AliasesAreActs(fs', cfg, name, rest);
      } else {
        var act := Point(a, name);
        assert Allowed(fs, act) && Do(fs, act) == fs';
        ActFate(fs, act, name);
        AliasesAreActs(fs', cfg, name, rest);
        var more := AliasActs(fs', cfg, name, rest);
        assert ([act] + more)[0] == act && ([act] + more)[1..] == more;
      }
    }
  }

  lemma {:induction false} RequestIsActs(fs: Homes, cfg: Config, info: Info)
    ensures var acts := RequestActs(fs, cfg, info);
            AllAllowed(fs, acts) && DoAll(fs, acts) == Handled(fs, cfg, info)
  {
    var name := Clean(info.name);
    if Home(fs, cfg, name, info.gid).Ok? {
      var fs0 := Home(fs, cfg, name, info.gid).value;
      HomeReached(fs, cfg, info);
      AliasesAreActs(fs0, cfg, name, info.aliases);
      if !Exists(fs, name) {
        var act, more := Make(name, fs0[name]), AliasActs(fs0, cfg, name, info.aliases);
        assert ([act] + more)[0] == act && ([act] + more)[1..] == more;
        assert Do(fs, act) == fs0;
      }
    }
  }

  lemma {:induction false} ServeIsActs(fs: Homes, cfg: Config, reqs: seq<Info>)
    ensures var acts := ServeActs(fs, cfg, reqs);
            AllAllowed(fs, acts) && DoAll(fs, acts) == Serve(fs, cfg, reqs)
    decreases |reqs|
  {
    if reqs != [] {
      var fs' := Handled(fs, cfg, reqs[0]);
      RequestIsActs(fs, cfg, reqs[0]);
      ServeIsActs(fs', cfg, reqs[1..]);
      DoConcat(fs, RequestActs(fs, cfg, reqs[0]), ServeActs(fs', cfg, reqs[1..]));
    }
  }

  // ---------------------------------------------------------- redelivery after others

  // Of the changes made in between, none cut the path to the home, and each alias that
  // was pointed at all was last pointed at this home.
  ghost predicate Undisturbed(fs: Homes, acts: seq<Act>, name: string, aliases: seq<string>) {
    && !Cut(fs, acts, name)
    && forall i | 0 <= i < |aliases| :: LastHome(acts, Clean(aliases[i])) in {None, Some(name)}
  }

  // A successful request leaves its aliases settled, and its home reached or trapped.
  lemma {:induction false} SuccessSettles(fs: Homes, cfg: Config, info: Info)
    requires Create(fs, cfg, info).Ok?
    ensures var fs1, name := Create(fs, cfg, info).value, Clean(info.name);
            && fs1 == Handled(fs, cfg, info) && (Reaches(fs1, name) || Trapped(fs1, name))
            && (Reaches(fs1, name) <==> !Reaches(fs, name) || Avoids(fs, name, info.aliases))
            && forall i | 0 <= i < |info.aliases| :: AliasDone(fs1, cfg, name, info.aliases[i])
  {
    var fs1, name := Create(fs, cfg, info).value, Clean(info.name);
    var fs0 := Home(fs, cfg, name, info.gid).value;
    HomeReached(fs, cfg, info);
    AliasesLeftOk(fs0, cfg, name, info.aliases);
    AliasesSettle(fs0, cfg, name, info.aliases);
    AliasesAreActs(fs0, cfg, name, info.aliases);
    Fate(fs0, AliasActs(fs0, cfg, name, info.aliases), name);
    RedeliveryHarmlessIff(fs, cfg, info);
    NothingToDoIff(fs1, cfg, info);
  }

  // A request that succeeded, delivered again after any list of other requests, succeeds
  // and changes nothing if and only if its own first delivery did not cut its home off and
  // the others left it undisturbed.
  lemma {:induction false} RedeliveryAfterIff(fs: Homes, cfg: Config, info: Info, others: seq<Info>)
    requires Create(fs, cfg, info).Ok?
    ensures var fs1, name := Create(fs, cfg, info).value, Clean(info.name);
            var t := Serve(fs1, cfg, others);
            Create(t, cfg, info) == Ok(t) <==>
            && (!Reaches(fs, name) || Avoids(fs, name, info.aliases))
            && Undisturbed(fs1, ServeActs(fs1, cfg, others), name, info.aliases)
  {
    var fs1, name := Create(fs, cfg, info).value, Clean(info.name);
    var acts, t := ServeActs(fs1, cfg, others), Serve(fs1, cfg, others);
    SuccessSettles(fs, cfg, info);
    ServeIsActs(fs1, cfg, others);
    NothingToDoIff(t, cfg, info);
    Fate(fs1, acts, name);
    if Trapped(t, name) {
      TrappedNotReached(t, name);
    }
    forall i | 0 <= i < |info.aliases|
      ensures AliasDone(t, cfg, name, info.aliases[i]) <==> LastHome(acts, Clean(info.aliases[i])) in {None, Some(name)}
    {
      assert AliasDone(fs1, cfg, name, info.aliases[i]);
      SettledAfterIff(fs1, acts, name, Clean(info.aliases[i]));
    }
  }

  // Where the home is no link, only the aliases matter.
  lemma {:induction false} PlainNotCut(fs: Homes, acts: seq<Act>, n: string)
    requires AllAllowed(fs, acts) && n in fs && !fs[n].Link?
    ensures !Cut(fs, acts, n)
    decreases |acts|
  {
    if acts != [] {
      PlainNotCut(Do(fs, acts[0]), acts[1..], n);
    }
  }

  lemma {:induction false} PlainRedeliveryAfterIff(fs: Homes, cfg: Config, info: Info, others: seq<Info>)
    requires Create(fs, cfg, info).Ok?
    requires Clean(info.name) in fs ==> !fs[Clean(info.name)].Link?
    ensures var fs1 := Create(fs, cfg, info).value;
            var t, acts := Serve(fs1, cfg, others), ServeActs(fs1, cfg, others);
            Create(t, cfg, info) == Ok(t) <==>
            forall i | 0 <= i < |info.aliases| ::
              LastHome(acts, Clean(info.aliases[i])) in {None, Some(Clean(info.name))}
  {
    var fs1, name := Create(fs, cfg, info).value, Clean(info.name);
    var fs0 := Home(fs, cfg, name, info.gid).value;
    RedeliveryAfterIff(fs, cfg, info, others);
    ServeIsActs(fs1, cfg, others);
    HomeReached(fs, cfg, info);
    AliasesSettle(fs0, cfg, name, info.aliases);
    PlainNotCut(fs1, ServeActs(fs1, cfg, others), name);
    NewHomeAvoids(fs0, name, info.aliases);
  }

  // ------------------------------------------------------------------ counterexamples

  const CFG := Config(true, true, false, false)
  const HOME := Dir(Some(1), false)
  const ROOT: Homes := map[".." := Dir(None, false)]

  // A name that cleaning leaves alone.
  predicate Letter(s: string) {
    |s| == 1 && s[0] !in {'.', '/', '\\'}
  }

  lemma {:induction false} CleanLetter(s: string)
    requires Letter(s)
    ensures Clean(s) == s && Within(CFG, s)
  {
    WithoutOther(s, '/');
    WithoutOther(s, '\\');
  }

  lemma {:induction false} WithoutOther(s: string, c: char)
    requires |s| == 1 && s[0] != c
    ensures Without(s, c) == s
  {
    assert s[1..] == [] && s == [s[0]] + [];
  }

  // Pointing a new name, or a link that works.
  lemma {:induction false} Points(fs: Homes, name: string, alias: string)
    requires Letter(alias) && (alias in fs ==> fs[alias].Link? && Reaches(fs, alias))
    ensures AliasStep(fs, CFG, name, alias) == Ok(fs[alias := Link(Sibling(name))])
  {
    CleanLetter(alias);
    ExistsIffReaches(fs, alias);
  }

  lemma {:induction false} OneAlias(fs: Homes, name: string, p: string)
    ensures Aliases(fs, CFG, name, [p]) == AliasStep(fs, CFG, name, p)
  {
    assert [p][1..] == [];
  }

  lemma {:induction false} TwoAliases(fs: Homes, name: string, p: string, q: string)
    requires AliasStep(fs, CFG, name, p).Ok?
    ensures Aliases(fs, CFG, name, [p, q]) == AliasStep(AliasStep(fs, CFG, name, p).value, CFG, name, q)
  {
    assert [p, q][1..] == [q];
    OneAlias(AliasStep(fs, CFG, name, p).value, name, q);
  }

  lemma {:induction false} ServeOne(fs: Homes, info: Info, rest: seq<Info>)
    requires Create(fs, CFG, info).Ok?
    ensures Serve(fs, CFG, [info] + rest) == Serve(Create(fs, CFG, info).value, CFG, rest)
  {
    AliasesLeftOk(Home(fs, CFG, Clean(info.name), info.gid).value, CFG, Clean(info.name), info.aliases);
    assert ([info] + rest)[1..] == rest;
  }

  const A := Info(1, "a", ["x", "y"])
  const B := Info(2, "y", ["x"])
  const AFTER_A: Homes := ROOT["a" := HOME]["x" := Link(Sibling("a"))]["y" := Link(Sibling("a"))]

  lemma {:induction false} FirstA()
    ensures Create(ROOT, CFG, A) == Ok(AFTER_A)
  {
    CleanLetter("a");
    var fs0 := ROOT["a" := HOME];
    Points(fs0, "a", "x");
    Points(fs0["x" := Link(Sibling("a"))], "a", "y");
    TwoAliases(fs0, "a", "x", "y");
  }

  // y is now a link to a home, so that home is taken for B's.
  lemma {:induction false} ThenB()
    ensures Create(AFTER_A, CFG, B) == Ok(AFTER_A["x" := Link(Sibling("y"))])
  {
    CleanLetter("y");
    assert Walk(AFTER_A, "y", 1) && Walk(AFTER_A, "x", 1);
    ExistsIffReaches(AFTER_A, "y");
    Points(AFTER_A, "y", "x");
    OneAlias(AFTER_A, "y", "x");
  }

  lemma {:induction false} ThenA()
    ensures Create(AFTER_A["x" := Link(Sibling("y"))], CFG, A) == Ok(AFTER_A)
  {
    CleanLetter("a");
    var fs := AFTER_A["x" := Link(Sibling("y"))];
    assert Walk(fs, "a", 0) && Walk(fs, "y", 1);
    assert Walk(fs, "x", 2);
    ExistsIffReaches(fs, "a");
    Points(fs, "a", "x");
    var fs' := fs["x" := Link(Sibling("a"))];
    assert fs' == AFTER_A && Walk(fs', "y", 1);
    Points(fs', "a", "y");
    assert fs'["y" := Link(Sibling("a"))] == AFTER_A;
    TwoAliases(fs, "a", "x", "y");
  }

  // Served first, B gets a home of its own, which A then leaves alone.
  lemma {:induction false} BFirst()
    ensures Create(ROOT, CFG, B).Ok? && "y" in Create(ROOT, CFG, B).value && !Create(ROOT, CFG, B).value["y"].Link?
  {
    CleanLetter("y");
    var fs0 := ROOT["y" := Dir(Some(2), false)];
    Points(fs0, "y", "x");
    OneAlias(fs0, "y", "x");
  }

  lemma {:induction false} ServeTwo(fs: Homes, p: Info, q: Info, t1: Homes, t2: Homes)
    requires Create(fs, CFG, p) == Ok(t1) && Create(t1, CFG, q) == Ok(t2)
    ensures Serve(fs, CFG, [p]) == t1 && Serve(fs, CFG, [p, q]) == t2
  {
    ServeOne(fs, p, []);
    ServeOne(t1, q, []);
    ServeOne(fs, p, [q]);
    assert [p] + [] == [p] && [q] + [] == [q] && [p] + [q] == [p, q];
  }

  lemma {:induction false} ServeThree(fs: Homes, p: Info, q: Info, r: Info, t1: Homes, t2: Homes, t3: Homes)
    requires Create(fs, CFG, p) == Ok(t1) && Create(t1, CFG, q) == Ok(t2) && Create(t2, CFG, r) == Ok(t3)
    ensures Serve(fs, CFG, [p, q, r]) == t3
  {
    ServeTwo(t1, q, r, t2, t3);
    ServeOne(fs, p, [q, r]);
    assert [p] + [q, r] == [p, q, r];
  }

  lemma {:induction false} ServedBA()
    ensures "y" in Serve(ROOT, CFG, [B, A]) && !Serve(ROOT, CFG, [B, A])["y"].Link?
  {
    BFirst();
    var b1 := Create(ROOT, CFG, B).value;
    ServeOne(ROOT, B, [A]);
    assert [B] + [A] == [B, A];
    ServeIsActs(b1, CFG, [A]);
    EntryAfter(b1, ServeActs(b1, CFG, [A]), "y");
    NoLinkNoPoint(b1, ServeActs(b1, CFG, [A]), "y");
  }

  // One request between the two deliveries of another, all three successful, and the
  // second delivery undoes the request in between: the tree is that of neither order with
  // single deliveries.
  lemma {:induction false} OvertakenRedelivery()
    ensures !Reaches(ROOT, Clean(A.name)) && Create(ROOT, CFG, A).Ok?
    ensures Create(Serve(ROOT, CFG, [A]), CFG, B).Ok? && Create(Serve(ROOT, CFG, [A, B]), CFG, A).Ok?
    ensures Serve(ROOT, CFG, [A, B, A]) != Serve(ROOT, CFG, [A, B])
    ensures Serve(ROOT, CFG, [A, B, A]) != Serve(ROOT, CFG, [B, A])
  {
    CleanLetter("a");
    FirstA();
    ThenB();
    ThenA();
    ServeTwo(ROOT, A, B, AFTER_A, AFTER_A["x" := Link(Sibling("y"))]);
    ServeThree(ROOT, A, B, A, AFTER_A, AFTER_A["x" := Link(Sibling("y"))], AFTER_A);
    ServedBA();
    assert AFTER_A["x"] != AFTER_A["x" := Link(Sibling("y"))]["x"] && AFTER_A["y"].Link?;
  }

  // A home that is a link, and an alias of that name: the first delivery points the link
  // at itself, and the second is refused.
  lemma {:induction false} RedeliveryRefused()
    ensures var fs, info := ROOT["a" := Link(Sibling("b"))]["b" := HOME], Info(1, "a", ["a"]);
            Create(fs, CFG, info).Ok? && Create(Create(fs, CFG, info).value, CFG, info) == Err
  {
    var fs, info := ROOT["a" := Link(Sibling("b"))]["b" := HOME], Info(1, "a", ["a"]);
    CleanLetter("a");
    assert Walk(fs, "a", 1);
    ExistsIffReaches(fs, "a");
    Points(fs, "a", "a");
    OneAlias(fs, "a", "a");
    var fs1 := fs["a" := Link(Sibling("a"))];
    forall k: nat ensures !Walk(fs1, "a", k) {
      assert Passes(fs, "a", "a", 0);
      LoopBreaks(fs, "a", "a", 0, k);
    }
  }

  // The same, stopped by a failing call at the next alias: no retry repairs it, although
  // the request itself would have succeeded.
  lemma {:induction false} RetryRefused()
    ensures var fs, info := ROOT["a" := Link(Sibling("b"))]["b" := HOME], Info(1, "a", ["a", "x"]);
            && Create(fs, CFG, info).Ok? && Stoppable(fs, CFG, info, AtAlias(1, false))
            && Left(fs, CFG, info, AtAlias(1, false)).Ok?
            && Create(Left(fs, CFG, info, AtAlias(1, false)).value, CFG, info) == Err
  {
    var fs, info := ROOT["a" := Link(Sibling("b"))]["b" := HOME], Info(1, "a", ["a", "x"]);
    CleanLetter("a");
    assert Walk(fs, "a", 1);
    ExistsIffReaches(fs, "a");
    Points(fs, "a", "a");
    var fs1 := fs["a" := Link(Sibling("a"))];
    Points(fs1, "a", "x");
    TwoAliases(fs, "a", "a", "x");
    assert info.aliases[..1] == ["a"];
    OneAlias(fs, "a", "a");
    forall k: nat ensures !Walk(fs1, "a", k) {
      assert Passes(fs, "a", "a", 0);
      LoopBreaks(fs, "a", "a", 0, k);
    }
  }
}
