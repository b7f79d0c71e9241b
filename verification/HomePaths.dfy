/** Names and paths of homes: what cleaning leaves of a name, when the joined path lies
    directly under the prefix, and exactly which entries a request changes. */
module HomePaths {
  import opened Prelude
  import opened HomeDirectory

  // ------------------------------------------------------------------------ clean names

  // r is s without its separators: the other characters, in order, at these places.
  ghost predicate Strips(s: string, r: string, at: seq<nat>) {
    && |at| == |r|
    && (forall n | 0 <= n < |at| :: at[n] < |s| && r[n] == s[at[n]])
    && (forall m, n | 0 <= m < n < |at| :: at[m] < at[n])
    && (forall i | 0 <= i < |s| :: i in at <==> s[i] != '/' && s[i] != '\\')
  }

  function Bare(s: string): string {
    Without(Without(s, '/'), '\\')
  }

  lemma {:induction false} BareCons(s: string)
    requires s != []
    ensures Bare(s) == if s[0] == '/' || s[0] == '\\' then Bare(s[1..]) else [s[0]] + Bare(s[1..])
  {
    var mid := Without(s[1..], '/');
    assert ([s[0]] + mid)[1..] == mid;
  }

  lemma {:induction false} StripsFrom(s: string) returns (at: seq<nat>)
    ensures Strips(s, Bare(s), at)
  {
    if s == [] {
      at := [];
    } else {
      var at' := StripsFrom(s[1..]);
      var moved := seq(|at'|, n requires 0 <= n < |at'| => at'[n] + 1);
      BareCons(s);
      if s[0] == '/' || s[0] == '\\' {
        at := moved;
        StripsSkip(s, Bare(s[1..]), at', moved);
      } else {
        at := [0] + moved;
        StripsKeep(s, Bare(s[1..]), at', moved);
      }
    }
  }

  lemma {:induction false} StripsSkip(s: string, r: string, at: seq<nat>, moved: seq<nat>)
    requires s != [] && (s[0] == '/' || s[0] == '\\') && Strips(s[1..], r, at)
    requires |moved| == |at| && forall n | 0 <= n < |at| :: moved[n] == at[n] + 1
    ensures Strips(s, r, moved)
  {
    Moved(s, at, moved);
    forall i | 0 <= i < |s| ensures i in moved <==> s[i] != '/' && s[i] != '\\' {
      assert i > 0 ==> s[1..][i - 1] == s[i];
    }
  }

  lemma {:induction false} StripsKeep(s: string, r: string, at: seq<nat>, moved: seq<nat>)
    requires s != [] && s[0] != '/' && s[0] != '\\' && Strips(s[1..], r, at)
    requires |moved| == |at| && forall n | 0 <= n < |at| :: moved[n] == at[n] + 1
    ensures Strips(s, [s[0]] + r, [0] + moved)
  {
    Moved(s, at, moved);
    forall i | 0 <= i < |s| ensures i in [0] + moved <==> s[i] != '/' && s[i] != '\\' {
      assert i > 0 ==> s[1..][i - 1] == s[i];
    }
  }

  lemma {:induction false} Moved(s: string, at: seq<nat>, moved: seq<nat>)
    requires |moved| == |at| && forall n | 0 <= n < |at| :: moved[n] == at[n] + 1
    ensures forall i: nat :: i in moved <==> i > 0 && i - 1 in at
  {
    forall i: nat | i > 0 && i - 1 in at ensures i in moved {
      var n :| 0 <= n < |at| && at[n] == i - 1;
      assert moved[n] == i;
    }
  }

  // Cleaning takes the dots off the front, all of them and no others, and then every
  // separator wherever it is.
  lemma {:induction false} CleanMeans(s: string) returns (k: nat, at: seq<nat>)
    ensures k <= |s| && (forall i | 0 <= i < k :: s[i] == '.') && (k < |s| ==> s[k] != '.')
    ensures Strips(s[k..], Clean(s), at)
  {
    k := LeadingDots(s);
    at := StripsFrom(s[k..]);
  }

  lemma {:induction false} LeadingDots(s: string) returns (k: nat)
    ensures k <= |s| && (forall i | 0 <= i < k :: s[i] == '.') && (k < |s| ==> s[k] != '.')
    ensures TrimDots(s) == s[k..]
  {
    if s != [] && s[0] == '.' {
      var n := LeadingDots(s[1..]);
      k := n + 1;
      assert s[1..][n..] == s[k..];
      assert forall i | 0 < i < k :: s[i] == s[1..][i - 1];
    } else {
      k := 0;
    }
  }

  // A name without a leading dot and without separators is kept.
  lemma {:induction false} CleanKeeps(s: string)
    requires (s != [] ==> s[0] != '.') && forall i | 0 <= i < |s| :: s[i] != '/' && s[i] != '\\'
    ensures Clean(s) == s
  {
    KeepsAll(s, '/');
    KeepsAll(s, '\\');
  }

  lemma {:induction false} KeepsAll(s: string, c: char)
    requires forall i | 0 <= i < |s| :: s[i] != c
    ensures Without(s, c) == s
  {
    if s != [] {
      KeepsAll(s[1..], c);
    }
  }

  // ------------------------------------------------------------------------------ paths

  // The names on a path: what stands between separators, empty names and "." left out.
  function Components(path: string): seq<string> {
    Split(path, "")
  }

  function Split(path: string, name: string): seq<string> {
    if path == "" then Component(name)
    else if path[0] == '/' then Component(name) + Split(path[1..], "")
    else Split(path[1..], name + [path[0]])
  }

  function Component(name: string): seq<string> {
    if name == "" || name == "." then [] else [name]
  }

  // Path::parent, as components: none for a path without a last name.
  function Parent(path: string): Option<seq<string>> {
    var cs := Components(path);
    if cs == [] then None else Some(cs[..|cs| - 1])
  }

  lemma {:induction false} SplitName(name: string, before: string)
    requires '/' !in name
    ensures Split(name, before) == Component(before + name)
  {
    if name == "" {
      assert before + name == before;
    } else {
      SplitName(name[1..], before + [name[0]]);
      assert before + [name[0]] + name[1..] == before + name;
    }
  }

  // Behind a separator a name is a component of its own.
  lemma {:induction false} SplitJoin(prefix: string, before: string, name: string)
    requires prefix != "" && prefix[|prefix| - 1] == '/' && '/' !in name
    ensures Split(prefix + name, before) == Split(prefix, before) + Component(name)
  {
    var rest := prefix[1..];
    assert (prefix + name)[1..] == rest + name;
    if rest == "" {
      assert rest + name == name && "" + name == name;
      SplitName(name, "");
      assert Split(prefix, before) == Component(before);
    } else if prefix[0] == '/' {
      SplitJoin(rest, "", name);
      assert Component(before) + (Split(rest, "") + Component(name)) == Split(prefix, before) + Component(name);
    } else {
      SplitJoin(rest, before + [prefix[0]], name);
    }
  }

  // Otherwise it only lengthens the last component.
  lemma {:induction false} SplitGlue(prefix: string, before: string, name: string)
    returns (front: seq<string>, last: string)
    requires (prefix == "" || prefix[|prefix| - 1] != '/') && '/' !in name
    requires prefix == "" ==> before != ""
    ensures Split(prefix, before) == front + Component(last)
    ensures Split(prefix + name, before) == front + Component(last + name)
    ensures last != "" && (last == "." ==> EndsInDotName(prefix, before))
  {
    if prefix == "" {
      assert prefix + name == name && [] + Component(before) == Component(before);
      SplitName(name, before);
      front, last := [], before;
      assert [] + Component(before + name) == Component(before + name);
    } else {
      var rest := prefix[1..];
      assert (prefix + name)[1..] == rest + name && (prefix + name)[0] == prefix[0];
      if prefix[0] == '/' {
        var f;
        f, last := SplitGlue(rest, "", name);
        front := Component(before) + f;
        Shift(Component(before), f, Component(last));
        Shift(Component(before), f, Component(last + name));
      } else {
        front, last := SplitGlue(rest, before + [prefix[0]], name);
      }
    }
  }

  lemma {:induction false} Shift(a: seq<string>, b: seq<string>, c: seq<string>)
    ensures a + (b + c) == a + b + c
  {
  }

  // The last name of the path is ".".
  predicate EndsInDotName(path: string, before: string) {
    if path == "" then before == "."
    else if path[0] == '/' then EndsInDotName(path[1..], "")
    else EndsInDotName(path[1..], before + [path[0]])
  }

  // The test the source makes: a name without separators, put behind the prefix, gives a
  // path whose parent is the prefix if and only if the prefix ends in a separator and the
  // name is neither empty nor ".".
  lemma {:induction false} WithinIffParent(cfg: Config, prefix: string, name: string)
    requires prefix != "" && '/' !in name && !EndsInDotName(prefix, "")
    requires cfg.prefixEndsInSlash <==> prefix[|prefix| - 1] == '/'
    ensures Within(cfg, name) <==> Parent(prefix + name) == Some(Components(prefix))
  {
    if cfg.prefixEndsInSlash {
      SplitJoin(prefix, "", name);
      var cs := Components(prefix);
      assert name != "" && name != "." ==> (cs + [name])[..|cs|] == cs;
    } else {
      var front, last := SplitGlue(prefix, "", name);
      assert last != "." && Components(prefix) == front + [last];
      var joined := Components(prefix + name);
      assert |joined| <= |front| + 1;
    }
  }

  // --------------------------------------------------------- exactly what a request does

  ghost predicate IsAlias(info: Info, b: string) {
    exists i :: 0 <= i < |info.aliases| && Clean(info.aliases[i]) == b
  }

  // After a success: a home that was not there is a directory of that owner, filled if that
  // is configured; a name that is an alias and was new or a link is a link to the home;
  // nothing else has changed.
  lemma {:induction false} CreateExactly(fs: Homes, cfg: Config, info: Info, b: string)
    requires Create(fs, cfg, info).Ok?
    ensures var fs1, name := Create(fs, cfg, info).value, Clean(info.name);
            var made := b == name && !Reaches(fs, name);
            var was := if made then Some(Dir(Some(info.gid), cfg.useSkeleton && cfg.skeletonExists))
                       else if b in fs then Some(fs[b]) else None;
            if IsAlias(info, b) && (was == None || was.value.Link?)
            then b in fs1 && fs1[b] == Link(Sibling(name))
            else (b in fs1 <==> was.Some?) && (was.Some? ==> fs1[b] == was.value)
  {
    var name := Clean(info.name);
    var fs0 := Home(fs, cfg, name, info.gid).value;
    ExistsIffReaches(fs, name);
    AliasesExactly(fs0, cfg, name, info.aliases, b);
  }

  lemma {:induction false} AliasesExactly(fs: Homes, cfg: Config, name: string, aliases: seq<string>, b: string)
    requires Aliases(fs, cfg, name, aliases).Ok?
    ensures var fs1 := Aliases(fs, cfg, name, aliases).value;
            if (exists i :: 0 <= i < |aliases| && Clean(aliases[i]) == b) && (b in fs ==> fs[b].Link?)
            then b in fs1 && fs1[b] == Link(Sibling(name))
            else (b in fs1 <==> b in fs) && (b in fs ==> fs1[b] == fs[b])
    decreases |aliases|
  {
    if aliases != [] {
      var rest, fs' := aliases[1..], AliasStep(fs, cfg, name, aliases[0]).value;
      AliasesExactly(fs', cfg, name, rest, b);
      if i :| 0 <= i < |aliases| && Clean(aliases[i]) == b {
        assert i > 0 ==> rest[i - 1] == aliases[i];
      }
      if i :| 0 <= i < |rest| && Clean(rest[i]) == b {
        assert aliases[i + 1] == rest[i];
      }
    }
  }

  // ----------------------------------------------------------- exactly when it succeeds

  // An alias is refused only for its name or because a dangling link stands in its place.
  lemma {:induction false} AliasStepOkIff(fs: Homes, cfg: Config, name: string, alias: string)
    ensures AliasStep(fs, cfg, name, alias).Ok? <==>
            Within(cfg, Clean(alias)) && (Clean(alias) in fs ==> Reaches(fs, Clean(alias)))
  {
    ExistsIffReaches(fs, Clean(alias));
  }

  // Alias i in the tree that the ones before it left.
  ghost predicate AliasFits(fs: Homes, cfg: Config, name: string, aliases: seq<string>, i: int)
    requires 0 <= i < |aliases|
  {
    var t, a := AliasesLeft(fs, cfg, name, aliases[..i]), Clean(aliases[i]);
    Within(cfg, a) && (a in t ==> Reaches(t, a))
  }

  lemma {:induction false} AliasesOkIff(fs: Homes, cfg: Config, name: string, aliases: seq<string>)
    ensures Aliases(fs, cfg, name, aliases).Ok? <==>
            forall i | 0 <= i < |aliases| :: AliasFits(fs, cfg, name, aliases, i)
  {
    if aliases != [] {
      var n := |aliases| - 1;
      var front := aliases[..n];
      AliasesOkIff(fs, cfg, name, front);
      forall i | 0 <= i < n ensures AliasFits(fs, cfg, name, aliases, i) <==> AliasFits(fs, cfg, name, front, i) {
        assert front[..i] == aliases[..i] && front[i] == aliases[i];
      }
      AliasesSplit(fs, cfg, name, aliases, n);
      if Aliases(fs, cfg, name, front).Ok? {
        var t := Aliases(fs, cfg, name, front).value;
        AliasesLeftOk(fs, cfg, name, front);
        assert aliases[n..] == [aliases[n]] && [aliases[n]][1..] == [];
        AliasStepOkIff(t, cfg, name, aliases[n]);
        assert AliasFits(fs, cfg, name, aliases, n) <==> AliasStep(t, cfg, name, aliases[n]).Ok?;
      }
    }
  }

  // A request succeeds, when no call fails, if and only if the prefix is a directory, the
  // home's and each alias's path lies directly in it, and none of them is a dangling link
  // when its turn comes.
  lemma {:induction false} CreateSucceedsIff(fs: Homes, cfg: Config, info: Info)
    ensures var name := Clean(info.name);
            var home := Dir(Some(info.gid), cfg.useSkeleton && cfg.skeletonExists);
            var fs0 := if name in fs then fs else fs[name := home];
            Create(fs, cfg, info).Ok? <==>
            && cfg.prefixIsDir && Within(cfg, name) && (name in fs ==> Reaches(fs, name))
            && forall i | 0 <= i < |info.aliases| :: AliasFits(fs0, cfg, name, info.aliases, i)
  {
    var name := Clean(info.name);
    ExistsIffReaches(fs, name);
    if name !in fs || Reaches(fs, name) {
      assert name !in fs ==> !Reaches(fs, name);
      AliasesOkIff(Home(fs, cfg, name, info.gid).value, cfg, name, info.aliases);
    }
  }
}
