/** Creating a home directory and its alias links, and doing it again. The directory of
    homes is a map from names to entries; symbolic links may point to a sibling or out of
    it. Entry ".." is always there, as in every directory. */
module HomeDirectory {
  import opened Prelude

  datatype Target = Sibling(name: string) | Outside(alive: bool)

  datatype Entry = Dir(owner: Option<nat>, skeleton: bool) | File | Link(target: Target)

  type Homes = map<string, Entry>

  datatype Config = Config(prefixIsDir: bool, prefixEndsInSlash: bool, useSkeleton: bool, skeletonExists: bool)

  datatype Info = Info(gid: nat, name: string, aliases: seq<string>)

  // ------------------------------------------------------------------ following links

  // A path exists if following at most k links ends at something.
  predicate Walk(fs: Homes, n: string, k: nat)
    decreases k
  {
    n in fs &&
    match fs[n]
    case Link(Sibling(m)) => k > 0 && Walk(fs, m, k - 1)
    case Link(Outside(alive)) => alive
    case _ => true
  }

  // Path::exists. More links than there are entries can only be a loop.
  predicate Exists(fs: Homes, n: string) {
    Walk(fs, n, |fs|)
  }

  ghost predicate Reaches(fs: Homes, n: string) {
    exists k :: Walk(fs, n, k)
  }

  lemma {:induction false} WalkMore(fs: Homes, n: string, k: nat, l: nat)
    requires Walk(fs, n, k) && k <= l
    ensures Walk(fs, n, l)
    decreases k
  {
    if fs[n].Link? && fs[n].target.Sibling? {
      WalkMore(fs, fs[n].target.name, k - 1, l - 1);
    }
  }

  // A walk that needs exactly k links passes k + 1 different entries.
  lemma {:induction false} DistinctSteps(fs: Homes, n: string, k: nat) returns (passed: set<string>)
    requires Walk(fs, n, k) && (k > 0 ==> !Walk(fs, n, k - 1))
    ensures passed <= fs.Keys && |passed| == k + 1
    ensures forall m | m in passed :: Walk(fs, m, k)
    decreases k
  {
    if k == 0 {
      passed := {n};
    } else {
      var m := fs[n].target.name;
      var rest := DistinctSteps(fs, m, k - 1);
      passed := rest + {n};
      forall x | x in rest ensures Walk(fs, x, k) {
        WalkMore(fs, x, k - 1, k);
      }
    }
  }

  lemma {:induction false} LeastSteps(fs: Homes, n: string, k: nat) returns (l: nat)
    requires Walk(fs, n, k)
    ensures l <= k && Walk(fs, n, l) && (l > 0 ==> !Walk(fs, n, l - 1))
  {
    if k > 0 && Walk(fs, n, k - 1) {
      l := LeastSteps(fs, n, k - 1);
    } else {
      l := k;
    }
  }

  lemma {:induction false} ExistsIffReaches(fs: Homes, n: string)
    ensures Exists(fs, n) <==> Reaches(fs, n)
  {
    if Reaches(fs, n) {
      var k :| Walk(fs, n, k);
      var l := LeastSteps(fs, n, k);
      var passed := DistinctSteps(fs, n, l);
      SubsetSize(passed, fs.Keys);
      WalkMore(fs, n, l, |fs|);
    }
  }

  // Following links from n comes past a.
  ghost predicate Passes(fs: Homes, n: string, a: string, k: nat)
    decreases k
  {
    n == a || (k > 0 && n in fs && fs[n].Link? && fs[n].target.Sibling? && Passes(fs, fs[n].target.name, a, k - 1))
  }

  ghost predicate OnChain(fs: Homes, n: string, a: string) {
    exists k :: Passes(fs, n, a, k)
  }

  lemma {:induction false} PassesWalk(fs: Homes, n: string, a: string, j: nat, k: nat) returns (l: nat)
    requires Passes(fs, n, a, j) && Walk(fs, n, k)
    ensures l <= k && Walk(fs, a, l)
    decreases j
  {
    if n == a {
      l := k;
    } else {
      l := PassesWalk(fs, fs[n].target.name, a, j - 1, k - 1);
    }
  }

  lemma {:induction false} WalkThrough(fs: Homes, n: string, a: string, j: nat, k: nat)
    requires Passes(fs, n, a, j) && Walk(fs, a, k)
    ensures Walk(fs, n, j + k)
    decreases j
  {
    if n == a {
      WalkMore(fs, n, k, j + k);
    } else {
      WalkThrough(fs, fs[n].target.name, a, j - 1, k);
    }
  }

  // Whatever lies on the chain of n exists exactly if n does.
  lemma {:induction false} ChainReaches(fs: Homes, n: string, a: string)
    requires OnChain(fs, n, a)
    ensures Reaches(fs, n) <==> Reaches(fs, a)
  {
    var j :| Passes(fs, n, a, j);
    if Reaches(fs, n) {
      var k :| Walk(fs, n, k);
      var l := PassesWalk(fs, n, a, j, k);
    }
    if Reaches(fs, a) {
      var k :| Walk(fs, a, k);
      WalkThrough(fs, n, a, j, k);
    }
  }

  // ----------------------------------------------------------- changing one entry

  lemma {:induction false} PassesPrefix(fs: Homes, n: string, a: string, e: Entry, j: nat)
    requires Passes(fs, n, a, j)
    ensures Passes(fs[a := e], n, a, j)
    decreases j
  {
    if n != a {
      PassesPrefix(fs, fs[n].target.name, a, e, j - 1);
    }
  }

  // Pointing an entry on the chain of n back at n makes n unreachable.
  lemma {:induction false} LoopBreaks(fs: Homes, n: string, a: string, j: nat, k: nat)
    requires Passes(fs, n, a, j)
    ensures !Walk(fs[a := Link(Sibling(n))], n, k)
    decreases k
  {
    var fs' := fs[a := Link(Sibling(n))];
    PassesPrefix(fs, n, a, Link(Sibling(n)), j);
    if Walk(fs', n, k) {
      var l := PassesWalk(fs', n, a, j, k);
      LoopBreaks(fs, n, a, j, l - 1);
    }
  }

  // Off the chain it makes no difference.
  lemma {:induction false} WalkFrame(fs: Homes, n: string, a: string, e: Entry, k: nat)
    requires !Passes(fs, n, a, k)
    ensures Walk(fs[a := e], n, k) == Walk(fs, n, k)
    decreases k
  {
    if k > 0 && n in fs && fs[n].Link? && fs[n].target.Sibling? {
      WalkFrame(fs, fs[n].target.name, a, e, k - 1);
    }
  }

  lemma {:induction false} PassesFrame(fs: Homes, n: string, a: string, e: Entry, b: string, k: nat)
    requires !Passes(fs, n, a, k)
    ensures Passes(fs[a := e], n, b, k) == Passes(fs, n, b, k)
    decreases k
  {
    if n != b && k > 0 && n in fs && fs[n].Link? && fs[n].target.Sibling? {
      PassesFrame(fs, fs[n].target.name, a, e, b, k - 1);
    }
  }

  lemma {:induction false} OffChain(fs: Homes, n: string, a: string, e: Entry)
    requires !OnChain(fs, n, a)
    ensures Reaches(fs[a := e], n) <==> Reaches(fs, n)
    ensures forall b :: OnChain(fs[a := e], n, b) <==> OnChain(fs, n, b)
  {
    var fs' := fs[a := e];
    forall k ensures Walk(fs', n, k) == Walk(fs, n, k) {
      if k >= 0 {
        assert !Passes(fs, n, a, k);
        WalkFrame(fs, n, a, e, k);
      }
    }
    forall b ensures OnChain(fs', n, b) <==> OnChain(fs, n, b) {
      forall k: nat ensures Passes(fs', n, b, k) == Passes(fs, n, b, k) {
        assert !Passes(fs, n, a, k);
        PassesFrame(fs, n, a, e, b, k);
      }
    }
  }

  // ------------------------------------------------------------------- cleaning names

  function TrimDots(s: string): string {
    if s != [] && s[0] == '.' then TrimDots(s[1..]) else s
  }

  function Without(s: string, c: char): (r: string)
    ensures c !in r && forall x | x in r :: x in s
  {
    if s == [] then []
    else if s[0] == c then Without(s[1..], c)
    else [s[0]] + Without(s[1..], c)
  }

  // No separator is left, so the joined path has the name as its one last component.
  function Clean(s: string): (r: string)
    ensures '/' !in r && '\\' !in r
  {
    Without(Without(TrimDots(s), '/'), '\\')
  }

  // The parent of prefix + name is the prefix: nothing and "." name the prefix itself.
  predicate Within(cfg: Config, name: string) {
    cfg.prefixEndsInSlash && name != "" && name != "."
  }

  // ------------------------------------------------------------------ what is promised

  function Home(fs: Homes, cfg: Config, name: string, gid: nat): Result<Homes> {
    if Exists(fs, name) then Ok(fs)
    else if name in fs then Err
    else Ok(fs[name := Dir(Some(gid), cfg.useSkeleton && cfg.skeletonExists)])
  }

  // An existing link is pointed at the home; anything else that exists is left alone.
  function AliasStep(fs: Homes, cfg: Config, name: string, alias: string): Result<Homes> {
    var a := Clean(alias);
    if !Within(cfg, a) then Err
    else if Exists(fs, a) then
      if fs[a].Link? then Ok(fs[a := Link(Sibling(name))]) else Ok(fs)
    else if a in fs then Err
    else Ok(fs[a := Link(Sibling(name))])
  }

  function Aliases(fs: Homes, cfg: Config, name: string, aliases: seq<string>): Result<Homes>
    decreases |aliases|
  {
    if aliases == [] then Ok(fs)
    else
      match AliasStep(fs, cfg, name, aliases[0])
      case Err => Err
      case Ok(fs') => Aliases(fs', cfg, name, aliases[1..])
  }

  function Create(fs: Homes, cfg: Config, info: Info): Result<Homes> {
    var name := Clean(info.name);
    if !cfg.prefixIsDir || !Within(cfg, name) then Err
    else match Home(fs, cfg, name, info.gid)
      case Err => Err
      case Ok(fs') => Aliases(fs', cfg, name, info.aliases)
  }

  // What a request leaves when no call fails, be it done or refused: the alias that is
  // refused and those after it are not touched.
  function AliasesLeft(fs: Homes, cfg: Config, name: string, aliases: seq<string>): Homes
    decreases |aliases|
  {
    if aliases == [] then fs
    else
      match AliasStep(fs, cfg, name, aliases[0])
      case Err => fs
      case Ok(fs') => AliasesLeft(fs', cfg, name, aliases[1..])
  }

  function Handled(fs: Homes, cfg: Config, info: Info): Homes {
    var name := Clean(info.name);
    if !cfg.prefixIsDir || !Within(cfg, name) then fs
    else match Home(fs, cfg, name, info.gid)
      case Err => fs
      case Ok(fs') => AliasesLeft(fs', cfg, name, info.aliases)
  }

  lemma {:induction false} AliasesLeftOk(fs: Homes, cfg: Config, name: string, aliases: seq<string>)
    requires Aliases(fs, cfg, name, aliases).Ok?
    ensures Aliases(fs, cfg, name, aliases).value == AliasesLeft(fs, cfg, name, aliases)
    decreases |aliases|
  {
    if aliases != [] {
      AliasesLeftOk(AliasStep(fs, cfg, name, aliases[0]).value, cfg, name, aliases[1..]);
    }
  }

  // No link that the home path goes through is named by an alias.
  ghost predicate Avoids(fs: Homes, name: string, aliases: seq<string>) {
    forall i | 0 <= i < |aliases| :: !Hits(fs, name, Clean(aliases[i]))
  }

  ghost predicate Hits(fs: Homes, name: string, a: string) {
    a in fs && fs[a].Link? && OnChain(fs, name, a)
  }

  // One alias: the home stays reachable unless the alias is a link on its path.
  lemma {:induction false} StepEffect(fs: Homes, cfg: Config, name: string, alias: string)
    requires AliasStep(fs, cfg, name, alias).Ok?
    ensures var fs' := AliasStep(fs, cfg, name, alias).value;
            if Reaches(fs, name) && !Hits(fs, name, Clean(alias)) then
              Reaches(fs', name) && forall b :: Hits(fs', name, b) <==> Hits(fs, name, b)
            else !Reaches(fs', name)
  {
    var a, fs' := Clean(alias), AliasStep(fs, cfg, name, alias).value;
    ExistsIffReaches(fs, a);
    if fs' != fs || Hits(fs, name, a) {
      if OnChain(fs, name, a) {
        ChainReaches(fs, name, a);
        var j :| Passes(fs, name, a, j);
        if a !in fs || fs[a].Link? {
          forall k: nat ensures !Walk(fs', name, k) {
            LoopBreaks(fs, name, a, j, k);
          }
        }
      } else {
        OffChain(fs, name, a, Link(Sibling(name)));
      }
    }
  }

  lemma {:induction false} HomeSurvivesIff(fs: Homes, cfg: Config, name: string, aliases: seq<string>)
    requires Aliases(fs, cfg, name, aliases).Ok?
    ensures Reaches(Aliases(fs, cfg, name, aliases).value, name) <==> Reaches(fs, name) && Avoids(fs, name, aliases)
    decreases |aliases|
  {
    if aliases != [] {
      var fs' := AliasStep(fs, cfg, name, aliases[0]).value;
      StepEffect(fs, cfg, name, aliases[0]);
      HomeSurvivesIff(fs', cfg, name, aliases[1..]);
      if Reaches(fs, name) && !Hits(fs, name, Clean(aliases[0])) {
        AvoidsCons(fs, fs', name, aliases);
      } else {
        assert Reaches(fs, name) ==> !Avoids(fs, name, aliases);
      }
    }
  }

  lemma {:induction false} AvoidsCons(fs: Homes, fs': Homes, name: string, aliases: seq<string>)
    requires aliases != [] && !Hits(fs, name, Clean(aliases[0]))
    requires forall b :: Hits(fs', name, b) <==> Hits(fs, name, b)
    ensures Avoids(fs', name, aliases[1..]) <==> Avoids(fs, name, aliases)
  {
    var rest := aliases[1..];
    assert forall i | 0 <= i < |rest| :: rest[i] == aliases[i + 1];
    if Avoids(fs', name, rest) {
      forall i | 0 <= i < |aliases| ensures !Hits(fs, name, Clean(aliases[i])) {
        assert i > 0 ==> aliases[i] == rest[i - 1];
      }
    }
  }

  // Alias a is a link to the home, or something else that was left alone.
  ghost predicate Settled(fs: Homes, name: string, a: string) {
    a in fs && (fs[a].Link? ==> fs[a] == Link(Sibling(name)))
  }

  lemma {:induction false} AliasesSettle(fs: Homes, cfg: Config, name: string, aliases: seq<string>)
    requires Aliases(fs, cfg, name, aliases).Ok?
    ensures var fs1 := Aliases(fs, cfg, name, aliases).value;
            && (forall i | 0 <= i < |aliases| ::
                  Within(cfg, Clean(aliases[i])) && Settled(fs1, name, Clean(aliases[i])))
            && (forall b | Settled(fs, name, b) :: Settled(fs1, name, b))
            && (forall b | b in fs :: b in fs1 && (if fs[b].Link? then fs1[b].Link? else fs1[b] == fs[b]))
    decreases |aliases|
  {
    if aliases != [] {
      var a, rest := Clean(aliases[0]), aliases[1..];
      var fs' := AliasStep(fs, cfg, name, aliases[0]).value;
      AliasesSettle(fs', cfg, name, rest);
      assert Settled(fs', name, a);
      assert forall b | Settled(fs, name, b) :: Settled(fs', name, b);
      forall i | 0 <= i < |aliases|
        ensures Within(cfg, Clean(aliases[i])) && Settled(Aliases(fs', cfg, name, rest).value, name, Clean(aliases[i]))
      {
        if i > 0 {
          assert aliases[i] == rest[i - 1];
        }
      }
    }
  }

  lemma {:induction false} SettledAgain(fs: Homes, cfg: Config, name: string, aliases: seq<string>)
    requires Reaches(fs, name)
    requires forall i | 0 <= i < |aliases| :: Within(cfg, Clean(aliases[i])) && Settled(fs, name, Clean(aliases[i]))
    ensures Aliases(fs, cfg, name, aliases) == Ok(fs)
  {
    if aliases != [] {
      var a, rest := Clean(aliases[0]), aliases[1..];
      assert Settled(fs, name, a);
      ExistsIffReaches(fs, a);
      assert Reaches(fs, a) by {
        var k: nat :| Walk(fs, name, k);
        assert Walk(fs, a, k + 1);
      }
      assert fs[a].Link? ==> fs[a := Link(Sibling(name))] == fs;
      assert forall i | 0 <= i < |rest| :: rest[i] == aliases[i + 1];
      SettledAgain(fs, cfg, name, rest);
    }
  }

  // Redelivery is harmless: running a successful request again succeeds and changes
  // nothing, exactly when the home did not exist before or none of the links its path
  // went through is one of the aliases. In particular it is whenever the home path was
  // not itself a link.
  lemma {:induction false} RedeliveryHarmlessIff(fs: Homes, cfg: Config, info: Info)
    requires Create(fs, cfg, info).Ok?
    ensures var fs1, name := Create(fs, cfg, info).value, Clean(info.name);
            && (Create(fs1, cfg, info) == Ok(fs1) <==> !Reaches(fs, name) || Avoids(fs, name, info.aliases))
            && (forall i | 0 <= i < |info.aliases| :: Settled(fs1, name, Clean(info.aliases[i])))
            && (forall b | b in fs && !fs[b].Link? :: b in fs1 && fs1[b] == fs[b])
  {
    var fs1, name := Create(fs, cfg, info).value, Clean(info.name);
    var fs0 := Home(fs, cfg, name, info.gid).value;
    ExistsIffReaches(fs, name);
    ExistsIffReaches(fs1, name);
    AliasesSettle(fs0, cfg, name, info.aliases);
    HomeSurvivesIff(fs0, cfg, name, info.aliases);
    assert name in fs0 && name in fs1;
    if !Reaches(fs, name) {
      assert Walk(fs0, name, 0);
      NewHomeAvoids(fs0, name, info.aliases);
    }
    if Reaches(fs1, name) {
      SettledAgain(fs1, cfg, name, info.aliases);
    }
  }

  lemma {:induction false} NewHomeAvoids(fs: Homes, name: string, aliases: seq<string>)
    requires name in fs && !fs[name].Link?
    ensures Avoids(fs, name, aliases)
  {
    forall i | 0 <= i < |aliases| ensures !Hits(fs, name, Clean(aliases[i])) {
      if OnChain(fs, name, Clean(aliases[i])) {
        var k :| Passes(fs, name, Clean(aliases[i]), k);
      }
    }
  }

  lemma {:induction false} PlainHomeHarmless(fs: Homes, cfg: Config, info: Info)
    requires Create(fs, cfg, info).Ok?
    requires Clean(info.name) in fs ==> !fs[Clean(info.name)].Link?
    ensures Create(Create(fs, cfg, info).value, cfg, info) == Create(fs, cfg, info)
  {
    RedeliveryHarmlessIff(fs, cfg, info);
    if Reaches(fs, Clean(info.name)) {
      NewHomeAvoids(fs, Clean(info.name), info.aliases);
    }
  }

  // The request carried out n times in all.
  function Delivered(fs: Homes, cfg: Config, info: Info, n: nat): Result<Homes> {
    if n == 0 then Ok(fs)
    else match Delivered(fs, cfg, info, n - 1)
      case Err => Err
      case Ok(fs') => Create(fs', cfg, info)
  }

  // Any number of deliveries in a row does what a single one does, under the same
  // condition.
  lemma {:induction false} RepeatedInARowIff(fs: Homes, cfg: Config, info: Info)
    requires Create(fs, cfg, info).Ok?
    ensures (forall n: nat | n > 0 :: Delivered(fs, cfg, info, n) == Create(fs, cfg, info)) <==>
            !Reaches(fs, Clean(info.name)) || Avoids(fs, Clean(info.name), info.aliases)
  {
    RedeliveryHarmlessIff(fs, cfg, info);
    var fs1 := Create(fs, cfg, info).value;
    assert Delivered(fs, cfg, info, 0) == Ok(fs) && Delivered(fs, cfg, info, 1) == Ok(fs1);
    if Create(fs1, cfg, info) == Ok(fs1) {
      forall n: nat | n > 0 ensures Delivered(fs, cfg, info, n) == Ok(fs1) {
        Repeats(fs, cfg, info, fs1, n);
      }
    } else {
      assert Delivered(fs, cfg, info, 2) == Create(fs1, cfg, info);
    }
  }

  lemma {:induction false} Repeats(fs: Homes, cfg: Config, info: Info, fs1: Homes, n: nat)
    requires n > 0 && Create(fs, cfg, info) == Ok(fs1) == Create(fs1, cfg, info)
    ensures Delivered(fs, cfg, info, n) == Ok(fs1)
  {
    if n == 1 {
      assert Delivered(fs, cfg, info, 0) == Ok(fs);
    } else {
      Repeats(fs, cfg, info, fs1, n - 1);
    }
  }

  // ------------------------------------------------------------- after a failed call

  // How far the procedure got: to the end; nowhere; a home without its owner; one without
  // its skeleton; or the aliases before number i, the link there removed or not.
  datatype Stop = Finished | NotStarted | Unowned | Unfilled | AtAlias(i: nat, removed: bool)

  // The home and the first i aliases.
  function UpTo(fs: Homes, cfg: Config, info: Info, i: nat): Result<Homes>
    requires i <= |info.aliases|
  {
    match Home(fs, cfg, Clean(info.name), info.gid)
    case Err => Err
    case Ok(fs0) => Aliases(fs0, cfg, Clean(info.name), info.aliases[..i])
  }

  // The tree that is left.
  function Left(fs: Homes, cfg: Config, info: Info, stop: Stop): Result<Homes> {
    match stop
    case Finished => Create(fs, cfg, info)
    case NotStarted => Ok(fs)
    case Unowned => Ok(fs[Clean(info.name) := Dir(None, false)])
    case Unfilled => Ok(fs[Clean(info.name) := Dir(Some(info.gid), false)])
    case AtAlias(i, removed) =>
      if i >= |info.aliases| then Err
      else match UpTo(fs, cfg, info, i)
        case Err => Err
        case Ok(fs') => Ok(if removed then fs' - {Clean(info.aliases[i])} else fs')
  }

  // A system call that fails can stop it there.
  ghost predicate Stoppable(fs: Homes, cfg: Config, info: Info, stop: Stop) {
    var name := Clean(info.name);
    cfg.prefixIsDir && Within(cfg, name) &&
    match stop
    case Finished => false
    case NotStarted => !Exists(fs, name) && name !in fs
    case Unowned => !Exists(fs, name) && name !in fs
    case Unfilled => !Exists(fs, name) && name !in fs && cfg.useSkeleton && cfg.skeletonExists
    case AtAlias(i, removed) =>
      && i < |info.aliases| && UpTo(fs, cfg, info, i).Ok?
      && var fs', a := UpTo(fs, cfg, info, i).value, Clean(info.aliases[i]);
      && AliasStep(fs', cfg, name, info.aliases[i]).Ok?
      && (removed ==> a in fs' && fs'[a].Link? && Exists(fs', a))
  }

  // Nothing was half made, no alias done so far was a link on the path to the home, and
  // the link removed was none either.
  ghost predicate Repairable(fs: Homes, cfg: Config, info: Info, stop: Stop)
    requires Stoppable(fs, cfg, info, stop)
  {
    var name := Clean(info.name);
    match stop
    case NotStarted => true
    case AtAlias(i, removed) =>
      var fs0 := Home(fs, cfg, name, info.gid).value;
      Avoids(fs0, name, info.aliases[..i]) && (removed ==> !Hits(fs0, name, Clean(info.aliases[i])))
    case _ => false
  }

  lemma {:induction false} AliasesSplit(fs: Homes, cfg: Config, name: string, aliases: seq<string>, i: nat)
    requires i <= |aliases|
    ensures var front := Aliases(fs, cfg, name, aliases[..i]);
            Aliases(fs, cfg, name, aliases) == if front.Ok? then Aliases(front.value, cfg, name, aliases[i..]) else Err
    decreases i
  {
    if i == 0 {
      assert aliases[..0] == [] && aliases[0..] == aliases;
    } else {
      var rest := aliases[1..];
      assert aliases[..i][0] == aliases[0] && aliases[..i][1..] == rest[..i - 1] && aliases[i..] == rest[i - 1..];
      var step := AliasStep(fs, cfg, name, aliases[0]);
      if step.Ok? {
        AliasesSplit(step.value, cfg, name, aliases[1..], i - 1);
      }
    }
  }

  // Aliases off the path to the home leave that path as it is.
  lemma {:induction false} HitsKept(fs: Homes, cfg: Config, name: string, aliases: seq<string>)
    requires Aliases(fs, cfg, name, aliases).Ok? && Reaches(fs, name) && Avoids(fs, name, aliases)
    ensures forall b :: Hits(Aliases(fs, cfg, name, aliases).value, name, b) <==> Hits(fs, name, b)
    decreases |aliases|
  {
    if aliases != [] {
      var fs' := AliasStep(fs, cfg, name, aliases[0]).value;
      StepEffect(fs, cfg, name, aliases[0]);
      AvoidsCons(fs, fs', name, aliases);
      HitsKept(fs', cfg, name, aliases[1..]);
    }
  }

  // Off the chain, removing an entry makes no difference.
  lemma {:induction false} RemoveOffChain(fs: Homes, n: string, a: string)
    requires a in fs && !OnChain(fs, n, a)
    ensures Reaches(fs - {a}, n) <==> Reaches(fs, n)
  {
    var less := fs - {a};
    assert fs == less[a := fs[a]];
    if OnChain(less, n, a) {
      var j :| Passes(less, n, a, j);
      PassesPrefix(less, n, a, fs[a], j);
    }
    OffChain(less, n, a, fs[a]);
  }

  // On it, the end is no longer reached.
  lemma {:induction false} RemoveOnChain(fs: Homes, n: string, a: string, j: nat, k: nat)
    requires Passes(fs, n, a, j)
    ensures !Walk(fs - {a}, n, k)
    decreases j
  {
    if n != a && k > 0 {
      RemoveOnChain(fs, fs[n].target.name, a, j - 1, k - 1);
    }
  }

  lemma {:induction false} StepAgain(fs: Homes, cfg: Config, name: string, alias: string)
    requires Reaches(fs, name) && Within(cfg, Clean(alias)) && Settled(fs, name, Clean(alias))
    ensures AliasStep(fs, cfg, name, alias) == Ok(fs)
  {
    SettledAgain(fs, cfg, name, [alias]);
    assert Aliases(fs, cfg, name, [alias]).Ok?;
    var step := AliasStep(fs, cfg, name, alias);
    assert [alias][0] == alias && [alias][1..] == [];
  }

  // Settled aliases, done again after the link a was removed, put it back or leave the
  // rest alone.
  lemma {:induction false} Restored(fs: Homes, cfg: Config, name: string, a: string, aliases: seq<string>)
    requires a in fs && fs[a].Link? && Reaches(fs, name) && Reaches(fs - {a}, name)
    requires forall i | 0 <= i < |aliases| :: Within(cfg, Clean(aliases[i])) && Settled(fs, name, Clean(aliases[i]))
    ensures Aliases(fs - {a}, cfg, name, aliases) ==
            Ok(if exists i :: 0 <= i < |aliases| && Clean(aliases[i]) == a then fs else fs - {a})
  {
    if aliases != [] {
      var less, b, rest := fs - {a}, Clean(aliases[0]), aliases[1..];
      assert forall i | 0 <= i < |rest| :: rest[i] == aliases[i + 1];
      assert Within(cfg, b) && Settled(fs, name, b);
      if b == a {
        assert AliasStep(less, cfg, name, aliases[0]) == Ok(less[a := Link(Sibling(name))]);
        assert less[a := Link(Sibling(name))] == fs;
        SettledAgain(fs, cfg, name, rest);
        assert Clean(aliases[0]) == a;
      } else {
        assert Settled(less, name, b);
        StepAgain(less, cfg, name, aliases[0]);
        Restored(fs, cfg, name, a, rest);
        if i :| 0 <= i < |aliases| && Clean(aliases[i]) == a {
          assert rest[i - 1] == aliases[i];
        }
      }
    }
  }

  // Stopped between two aliases: the retry goes on where the first call stopped.
  lemma {:induction false} RetryBetween(fs: Homes, cfg: Config, info: Info, i: nat)
    requires Create(fs, cfg, info).Ok? && Stoppable(fs, cfg, info, AtAlias(i, false))
    ensures Create(UpTo(fs, cfg, info, i).value, cfg, info) == Create(fs, cfg, info)
            <==> Repairable(fs, cfg, info, AtAlias(i, false))
  {
    var name, front := Clean(info.name), info.aliases[..i];
    var fs0, fs' := Home(fs, cfg, name, info.gid).value, UpTo(fs, cfg, info, i).value;
    HomeReached(fs, cfg, info);
    AliasesSettle(fs0, cfg, name, front);
    HomeSurvivesIff(fs0, cfg, name, front);
    ExistsIffReaches(fs', name);
    if Reaches(fs', name) {
      SettledAgain(fs', cfg, name, front);
      AliasesSplit(fs', cfg, name, info.aliases, i);
      AliasesSplit(fs0, cfg, name, info.aliases, i);
    }
  }

  lemma {:induction false} HomeReached(fs: Homes, cfg: Config, info: Info)
    requires Home(fs, cfg, Clean(info.name), info.gid).Ok?
    ensures var fs0 := Home(fs, cfg, Clean(info.name), info.gid).value;
            Clean(info.name) in fs0 && Reaches(fs0, Clean(info.name))
  {
    var name := Clean(info.name);
    var fs0 := Home(fs, cfg, name, info.gid).value;
    ExistsIffReaches(fs, name);
    if !Exists(fs, name) {
      assert Walk(fs0, name, 0);
    }
  }

  // Going on from alias i, with its link removed or not.
  lemma {:induction false} Resume(fs: Homes, cfg: Config, name: string, rest: seq<string>)
    requires rest != [] && Clean(rest[0]) in fs && fs[Clean(rest[0])].Link? && Exists(fs, Clean(rest[0]))
    requires AliasStep(fs, cfg, name, rest[0]).Ok?
    ensures Aliases(fs - {Clean(rest[0])}, cfg, name, rest) == Aliases(fs, cfg, name, rest)
  {
    var a := Clean(rest[0]);
    assert (fs - {a})[a := Link(Sibling(name))] == fs[a := Link(Sibling(name))];
  }

  // Stopped with a link removed that is not on the path: the retry puts it back.
  lemma {:induction false} RetryRemovedOff(fs: Homes, cfg: Config, info: Info, i: nat)
    requires Create(fs, cfg, info).Ok? && Stoppable(fs, cfg, info, AtAlias(i, true))
    requires var fs' := UpTo(fs, cfg, info, i).value;
             Reaches(fs', Clean(info.name)) && !OnChain(fs', Clean(info.name), Clean(info.aliases[i]))
    ensures Create(UpTo(fs, cfg, info, i).value - {Clean(info.aliases[i])}, cfg, info) == Create(fs, cfg, info)
  {
    var name, a, front, rest := Clean(info.name), Clean(info.aliases[i]), info.aliases[..i], info.aliases[i..];
    var fs0, fs' := Home(fs, cfg, name, info.gid).value, UpTo(fs, cfg, info, i).value;
    var less := fs' - {a};
    RemoveOffChain(fs', name, a);
    ExistsIffReaches(less, name);
    AliasesSettle(fs0, cfg, name, front);
    Restored(fs', cfg, name, a, front);
    AliasesSplit(less, cfg, name, info.aliases, i);
    AliasesSplit(fs0, cfg, name, info.aliases, i);
    assert rest[0] == info.aliases[i];
    Resume(fs', cfg, name, rest);
  }

  // Stopped with a link removed that is on the path: the retry fails or makes a new home
  // where a link was.
  lemma {:induction false} RetryRemovedOn(fs: Homes, cfg: Config, info: Info, i: nat)
    requires Create(fs, cfg, info).Ok? && Stoppable(fs, cfg, info, AtAlias(i, true))
    requires OnChain(UpTo(fs, cfg, info, i).value, Clean(info.name), Clean(info.aliases[i]))
    ensures Create(UpTo(fs, cfg, info, i).value - {Clean(info.aliases[i])}, cfg, info) != Create(fs, cfg, info)
  {
    var name, a := Clean(info.name), Clean(info.aliases[i]);
    var fs0, fs' := Home(fs, cfg, name, info.gid).value, UpTo(fs, cfg, info, i).value;
    var less := fs' - {a};
    var j :| Passes(fs', name, a, j);
    RemoveOnChain(fs', name, a, j, |less|);
    HomeReached(fs, cfg, info);
    AliasesSettle(fs0, cfg, name, info.aliases[..i]);
    AliasesSplit(fs0, cfg, name, info.aliases, i);
    AliasesSettle(fs', cfg, name, info.aliases[i..]);
    if name == a && Create(less, cfg, info).Ok? {
      AliasesSettle(Home(less, cfg, name, info.gid).value, cfg, name, info.aliases);
    }
  }

  // After a home that no longer can be reached, removing a further link cannot help.
  lemma {:induction false} RetryLost(fs: Homes, cfg: Config, info: Info, i: nat)
    requires Create(fs, cfg, info).Ok? && Stoppable(fs, cfg, info, AtAlias(i, true))
    requires !Reaches(UpTo(fs, cfg, info, i).value, Clean(info.name))
    ensures Create(UpTo(fs, cfg, info, i).value - {Clean(info.aliases[i])}, cfg, info) != Create(fs, cfg, info)
  {
    var name, a := Clean(info.name), Clean(info.aliases[i]);
    var fs0, fs' := Home(fs, cfg, name, info.gid).value, UpTo(fs, cfg, info, i).value;
    ExistsIffReaches(fs', a);
    if OnChain(fs', name, a) {
      ChainReaches(fs', name, a);
    } else {
      assert Passes(fs', name, name, 0);
      RemoveOffChain(fs', name, a);
      ExistsIffReaches(fs' - {a}, name);
      HomeReached(fs, cfg, info);
      AliasesSettle(fs0, cfg, name, info.aliases[..i]);
    }
  }

  // Which directory stands for the home makes no difference to following links.
  lemma {:induction false} WalkOtherDir(fs: Homes, name: string, home: Entry, n: string, k: nat)
    requires name in fs && fs[name].Dir? && home.Dir?
    ensures Walk(fs[name := home], n, k) == Walk(fs, n, k)
    decreases k
  {
    if n in fs && fs[n].Link? && fs[n].target.Sibling? && k > 0 {
      WalkOtherDir(fs, name, home, fs[n].target.name, k - 1);
    }
  }

  // ... nor to the aliases.
  lemma {:induction false} AliasesOtherDir(fs: Homes, cfg: Config, name: string, home: Entry, aliases: seq<string>)
    requires name in fs && fs[name].Dir? && home.Dir? && Aliases(fs, cfg, name, aliases).Ok?
    ensures Aliases(fs[name := home], cfg, name, aliases) == Ok(Aliases(fs, cfg, name, aliases).value[name := home])
    decreases |aliases|
  {
    if aliases != [] {
      var a, fs', other := Clean(aliases[0]), AliasStep(fs, cfg, name, aliases[0]).value, fs[name := home];
      assert |other| == |fs|;
      WalkOtherDir(fs, name, home, a, |fs|);
      assert fs' != fs ==> a != name;
      assert a != name ==> other[a := Link(Sibling(name))] == fs[a := Link(Sibling(name))][name := home];
      assert AliasStep(other, cfg, name, aliases[0]) == Ok(fs'[name := home]);
      AliasesOtherDir(fs', cfg, name, home, aliases[1..]);
    }
  }

  // A home half made stays half made: every later delivery succeeds, does the aliases,
  // and leaves the home as it found it.
  lemma {:induction false} HalfMadeForever(fs: Homes, cfg: Config, info: Info, home: Entry, n: nat)
    requires Create(fs, cfg, info).Ok? && !Exists(fs, Clean(info.name)) && home.Dir? && n > 0
    ensures Delivered(fs[Clean(info.name) := home], cfg, info, n) ==
            Ok(Create(fs, cfg, info).value[Clean(info.name) := home])
  {
    var name := Clean(info.name);
    var fs', fs0 := fs[name := home], Home(fs, cfg, name, info.gid).value;
    assert fs0[name := home] == fs';
    AliasesOtherDir(fs0, cfg, name, home, info.aliases);
    ExistsIffReaches(fs', name);
    assert Walk(fs', name, 0);
    PlainHomeHarmless(fs', cfg, info);
    Repeats(fs', cfg, info, Create(fs', cfg, info).value, n);
  }

  lemma {:induction false} HalfMadeNotRepaired(fs: Homes, cfg: Config, info: Info, home: Entry)
    requires Create(fs, cfg, info).Ok? && !Exists(fs, Clean(info.name)) && home.Dir?
    requires home != Dir(Some(info.gid), cfg.useSkeleton && cfg.skeletonExists)
    ensures Create(fs[Clean(info.name) := home], cfg, info) != Create(fs, cfg, info)
  {
    var name := Clean(info.name);
    HalfMadeForever(fs, cfg, info, home, 1);
    assert Delivered(fs[name := home], cfg, info, 0) == Ok(fs[name := home]);
    assert Create(fs[name := home], cfg, info) == Ok(Create(fs, cfg, info).value[name := home]);
    var fs0 := Home(fs, cfg, name, info.gid).value;
    AliasesSettle(fs0, cfg, name, info.aliases);
    assert Create(fs, cfg, info).value[name] == fs0[name] != home;
  }

  // Wherever a failing system call stops a request that would have succeeded, doing it
  // again gives the tree of that success if and only if what was left is repairable.
  lemma {:induction false} RetryRepairsIff(fs: Homes, cfg: Config, info: Info, stop: Stop)
    requires Create(fs, cfg, info).Ok? && Stoppable(fs, cfg, info, stop)
    ensures Left(fs, cfg, info, stop).Ok?
    ensures Create(Left(fs, cfg, info, stop).value, cfg, info) == Create(fs, cfg, info)
            <==> Repairable(fs, cfg, info, stop)
  {
    match stop
    case NotStarted =>
    case Unowned => HalfMadeNotRepaired(fs, cfg, info, Dir(None, false));
    case Unfilled => HalfMadeNotRepaired(fs, cfg, info, Dir(Some(info.gid), false));
    case AtAlias(i, false) => RetryBetween(fs, cfg, info, i);
    case AtAlias(i, true) => RetryRemovedIff(fs, cfg, info, i);
  }

  lemma {:induction false} RetryRemovedIff(fs: Homes, cfg: Config, info: Info, i: nat)
    requires Create(fs, cfg, info).Ok? && Stoppable(fs, cfg, info, AtAlias(i, true))
    ensures Create(UpTo(fs, cfg, info, i).value - {Clean(info.aliases[i])}, cfg, info) == Create(fs, cfg, info)
            <==> Repairable(fs, cfg, info, AtAlias(i, true))
  {
    var name, a, front := Clean(info.name), Clean(info.aliases[i]), info.aliases[..i];
    var fs0, fs' := Home(fs, cfg, name, info.gid).value, UpTo(fs, cfg, info, i).value;
    HomeReached(fs, cfg, info);
    HomeSurvivesIff(fs0, cfg, name, front);
    if !Reaches(fs', name) {
      RetryLost(fs, cfg, info, i);
    } else {
      HitsKept(fs0, cfg, name, front);
      assert Hits(fs', name, a) <==> OnChain(fs', name, a);
      if OnChain(fs', name, a) {
        RetryRemovedOn(fs, cfg, info, i);
      } else {
        RetryRemovedOff(fs, cfg, info, i);
      }
    }
  }

  // --------------------------------------------------------------------- the procedure

  // The directory of homes; any system call on it may fail.
  class HomePrefix {
    var entries: Homes

    ghost predicate Rooted()
      reads this
    {
      ".." in entries && entries[".."].Dir?
    }

    constructor (entries: Homes)
      requires ".." in entries && entries[".."].Dir?
      ensures Rooted() && this.entries == entries
    {
      this.entries := entries;
    }

    // Does what is specified, and leaves the tree that its stop says. It stops early by
    // itself only where the specification refuses, and otherwise because a call failed.
    method CreateHomeDirectory(cfg: Config, info: Info) returns (r: Result<()>, ghost fault: bool, ghost stop: Stop)
      requires Rooted()
      modifies this
      ensures Rooted() && (r.Ok? <==> stop == Finished)
      ensures Left(old(entries), cfg, info, stop) == Ok(entries)
      ensures fault ==> Stoppable(old(entries), cfg, info, stop)
      ensures !fault ==> entries == Handled(old(entries), cfg, info)
      ensures !fault && r == Err ==> Create(old(entries), cfg, info) == Err
      ensures !fault && r == Err ==> stop == NotStarted || (stop.AtAlias? && !stop.removed)
    {
      fault, stop := false, NotStarted;
      var name := Clean(info.name);
      if !cfg.prefixIsDir || !Within(cfg, name) {
        return Err, fault, stop;
      }
      if !Exists(entries, name) {
        r, fault, stop := MakeHome(cfg, name, info.gid);
        if r == Err { return; }
      }
      ghost var i, removed;
      r, fault, i, removed := LinkAliases(cfg, name, info.aliases);
      stop := if r.Ok? then Finished else AtAlias(i, removed);
    }

    // create_dir_all, chown and the copy of the skeleton
    method MakeHome(cfg: Config, name: string, gid: nat) returns (r: Result<()>, ghost fault: bool, ghost stop: Stop)
      requires Rooted() && !Exists(entries, name)
      modifies this
      ensures Rooted() && (fault ==> r == Err && name !in old(entries))
      ensures r.Ok? ==> Home(old(entries), cfg, name, gid) == Ok(entries)
      ensures r == Err && !fault ==> Home(old(entries), cfg, name, gid) == Err
      ensures r == Err ==> stop == NotStarted || (fault && stop == Unowned)
                           || (fault && stop == Unfilled && cfg.useSkeleton && cfg.skeletonExists)
      ensures r == Err ==> entries == match stop
                             case Unowned => old(entries)[name := Dir(None, false)]
                             case Unfilled => old(entries)[name := Dir(Some(gid), false)]
                             case _ => old(entries)
    {
      fault, stop := false, NotStarted;
      if name in entries {
        // A dangling link stands in the way.
        return Err, fault, stop;
      }
      var ok: bool := *;
      if !ok { return Err, true, NotStarted; }
      entries := entries[name := Dir(None, false)];
      ok := *;
      if !ok { return Err, true, Unowned; }
      entries := entries[name := Dir(Some(gid), false)];
      assert entries == old(entries)[name := Dir(Some(gid), false)];
      if cfg.useSkeleton && cfg.skeletonExists {
        ok := *;
        if !ok { return Err, true, Unfilled; }
        entries := entries[name := Dir(Some(gid), true)];
      }
      assert entries == old(entries)[name := entries[name]];
      r := Ok(());
    }

    // Alias i is the one that failed, after all before it were done.
    method LinkAliases(cfg: Config, name: string, aliases: seq<string>)
      returns (r: Result<()>, ghost fault: bool, ghost i: nat, ghost removed: bool)
      requires Rooted()
      modifies this
      ensures Rooted() && (fault ==> r == Err)
      ensures r.Ok? ==> Aliases(old(entries), cfg, name, aliases) == Ok(entries)
      ensures !fault ==> entries == AliasesLeft(old(entries), cfg, name, aliases)
      ensures r == Err ==> i < |aliases| && StoppedAt(old(entries), cfg, name, aliases, i, removed, fault, entries)
      ensures r == Err && !fault ==> Aliases(old(entries), cfg, name, aliases) == Err
    {
      fault, removed, i := false, false, 0;
      assert aliases[0..] == aliases;
      for n := 0 to |aliases|
        invariant Rooted() && !fault
        invariant Aliases(old(entries), cfg, name, aliases[..n]) == Ok(entries)
        invariant AliasesLeft(old(entries), cfg, name, aliases) == AliasesLeft(entries, cfg, name, aliases[n..])
      {
        assert aliases[n..][0] == aliases[n] && aliases[n..][1..] == aliases[n + 1..];
        r, fault, removed := LinkAlias(cfg, name, aliases[n]);
        AliasesSplit(old(entries), cfg, name, aliases[..n + 1], n);
        assert aliases[..n + 1][..n] == aliases[..n] && aliases[..n + 1][n..] == [aliases[n]];
        assert [aliases[n]][1..] == [];
        if r == Err {
          i := n;
          AliasesSplit(old(entries), cfg, name, aliases, n);
          return;
        }
      }
      assert aliases[..|aliases|] == aliases;
      r := Ok(());
    }

    method LinkAlias(cfg: Config, name: string, alias: string)
      returns (r: Result<()>, ghost fault: bool, ghost removed: bool)
      requires Rooted()
      modifies this
      ensures Rooted() && (fault ==> r == Err)
      ensures r.Ok? ==> AliasStep(old(entries), cfg, name, alias) == Ok(entries)
      ensures r == Err ==> StepStopped(old(entries), cfg, name, alias, removed, fault, entries)
    {
      fault, removed := false, false;
      var a := Clean(alias);
      if !Within(cfg, a) {
        return Err, fault, removed;
      }
      var ok: bool := *;
      if Exists(entries, a) {
        if !ok { return Err, true, false; }
        if entries[a].Link? {
          entries := entries - {a};
          ok := *;
          if !ok { return Err, true, true; }
          entries := entries[a := Link(Sibling(name))];
          assert entries == old(entries)[a := Link(Sibling(name))];
        }
      } else {
        if a in entries { return Err, fault, removed; }
        if !ok { return Err, true, false; }
        entries := entries[a := Link(Sibling(name))];
      }
      r := Ok(());
    }
  }

  // One alias failed: refused, or stopped by a failing call, perhaps with its old link
  // already removed.
  ghost predicate StepStopped(
    fs: Homes, cfg: Config, name: string, alias: string, removed: bool, fault: bool, left: Homes)
  {
    var a := Clean(alias);
    && left == (if removed then fs - {a} else fs)
    && (AliasStep(fs, cfg, name, alias).Ok? <==> fault)
    && (removed ==> fault && a in fs && fs[a].Link? && Exists(fs, a))
  }

  ghost predicate StoppedAt(
    fs: Homes, cfg: Config, name: string, aliases: seq<string>, i: nat, removed: bool, fault: bool, left: Homes)
    requires i < |aliases|
  {
    var front := Aliases(fs, cfg, name, aliases[..i]);
    front.Ok? && StepStopped(front.value, cfg, name, aliases[i], removed, fault, left)
  }
}
