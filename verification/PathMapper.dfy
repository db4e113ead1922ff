/**
 Per-client path redirection, the merged listing that hides it, and the filter that undoes it on
 watch events. Matching works on strings where the source does; `Split` relates it to segments.
 */
module PathMapper {
  import opened Lru
  import opened Text

  const DEFAULT_PRIVATE_PATTERN_BASENAMES: seq<string> :=
    ["workspace.json", "workspace-mobile.json", "app.json", "appearance.json", "core-plugins.json",
     "hotkeys.json", "plugins/*/data.json", "cache", "cache.zlib", "types.json", "file-recovery.json",
     "graph.json", "canvas.json"]

  const PRIVATE_USER_SUBDIR := "user"

  datatype PathMapper = PathMapper(clientId: string, configDir: string, privatePatterns: seq<string>)

  datatype ListPlan = ListPlan(primary: string, userSubtree: Option<string>, hideUserDirName: Option<string>)

  function Qualify(configDir: string, p: string): string {
    if configDir + "/" <= p then p else configDir + "/" + p
  }

  function Make(clientId: string, configDir: string, patterns: seq<string>): PathMapper {
    PathMapper(clientId, configDir, seq(|patterns|, i requires 0 <= i < |patterns| => Qualify(configDir, patterns[i])))
  }

  function StripLeadingSlash(p: string): string {
    if "/" <= p then p[1..] else p
  }

  function ParentDirOf(p: string): string {
    if '/' in p then p[..LastSlash(p)] else ""
  }

  predicate SegmentsMatch(pat: seq<string>, segs: seq<string>)
    requires |pat| <= |segs|
  {
    forall i | 0 <= i < |pat| :: pat[i] == "*" || pat[i] == segs[i]
  }

  /** Exact or directory prefix; a `*` segment stands for any one segment. */
  predicate MatchesPrivatePattern(pattern: string, normalized: string) {
    if '*' !in pattern then AtOrUnder(normalized, pattern)
    else
      var pat, segs := Split(pattern, '/'), Split(normalized, '/');
      |segs| >= |pat| && SegmentsMatch(pat, segs)
  }

  /** Same depth only. */
  predicate MatchesPatternExact(pattern: string, normalized: string) {
    var pat, segs := Split(pattern, '/'), Split(normalized, '/');
    |pat| == |segs| && SegmentsMatch(pat, segs)
  }

  function ConfigDirSlash(m: PathMapper): string {
    m.configDir + "/"
  }

  function PrivateRoot(m: PathMapper): string {
    m.configDir + "/" + PRIVATE_USER_SUBDIR + "/" + m.clientId
  }

  predicate IsPrivate(m: PathMapper, vaultPath: string) {
    exists i | 0 <= i < |m.privatePatterns| :: MatchesPrivatePattern(m.privatePatterns[i], StripLeadingSlash(vaultPath))
  }

  predicate IsCrossingPoint(m: PathMapper, vaultPath: string) {
    var normalized := StripLeadingSlash(vaultPath);
    !IsPrivate(m, normalized) &&
    exists i | 0 <= i < |m.privatePatterns| :: MatchesPatternExact(ParentDirOf(m.privatePatterns[i]), normalized)
  }

  function Rest(m: PathMapper, normalized: string): string {
    if ConfigDirSlash(m) <= normalized then normalized[|ConfigDirSlash(m)|..] else normalized
  }

  function ToRemote(m: PathMapper, vaultPath: string): string {
    var normalized := StripLeadingSlash(vaultPath);
    if !IsPrivate(m, normalized) then vaultPath
    else PrivateRoot(m) + "/" + Rest(m, normalized)
  }

  function ToVault(m: PathMapper, remotePath: string): string {
    var prefix := PrivateRoot(m) + "/";
    if prefix <= remotePath then ConfigDirSlash(m) + remotePath[|prefix|..] else remotePath
  }

  function ResolveListing(m: PathMapper, vaultPath: string): ListPlan {
    var normalized := StripLeadingSlash(vaultPath);
    if IsPrivate(m, normalized) then ListPlan(ToRemote(m, vaultPath), None, None)
    else if IsCrossingPoint(m, normalized) then
      var rest := if ConfigDirSlash(m) <= normalized then normalized[|ConfigDirSlash(m)|..] else "";
      ListPlan(vaultPath,
               Some(if rest != "" then PrivateRoot(m) + "/" + rest else PrivateRoot(m)),
               if normalized == m.configDir then Some(PRIVATE_USER_SUBDIR) else None)
    else ListPlan(vaultPath, None, None)
  }

  // ---------------------------------------------------------------- strings and segments

  /** What the constructor guarantees of every pattern, for a config directory that has no wildcard segment. */
  ghost predicate WellFormed(m: PathMapper) {
    && m.configDir != "" && "*" !in Split(m.configDir, '/') && m.configDir[0] != '/'
    && forall i | 0 <= i < |m.privatePatterns| :: ConfigDirSlash(m) <= m.privatePatterns[i]
  }

  /** A vault path as Obsidian hands it over: no leading slash, no empty segment. */
  ghost predicate Normal(p: string) {
    p != "" && "" !in Split(p, '/')
  }

  lemma NormalHasNoLeadingSlash(p: string)
    requires Normal(p)
    ensures StripLeadingSlash(p) == p && p[|p| - 1] != '/'
  {
    SlashAtAnEnd(p);
  }

  lemma {:induction false} SlashAtAnEnd(p: string)
    requires p != ""
    ensures "/" <= p || p[|p| - 1] == '/' ==> "" in Split(p, '/')
  {
    if "/" <= p {
      FirstEmpty(p);
    } else if p[|p| - 1] == '/' {
      LastEmpty(p);
    }
  }

  lemma {:induction false} FirstEmpty(p: string)
    requires "/" <= p
    ensures "" in Split(p, '/')
  {
    assert p == "" + ['/'] + p[1..];
    SplitConcat("", p[1..], '/');
    assert Split(p, '/')[0] == "";
  }

  lemma {:induction false} LastEmpty(p: string)
    requires p != "" && p[|p| - 1] == '/'
    ensures "" in Split(p, '/')
  {
    assert p == p[..|p| - 1] + ['/'] + "";
    SplitConcat(p[..|p| - 1], "", '/');
    assert Split(p, '/')[|Split(p, '/')| - 1] == "";
  }

  /** The two matching modes are one: a prefix match on segments with wildcards. */
  lemma {:induction false} MatchIsSegmentPrefix(pattern: string, normalized: string)
    ensures var pat, segs := Split(pattern, '/'), Split(normalized, '/');
            MatchesPrivatePattern(pattern, normalized) <==> |segs| >= |pat| && SegmentsMatch(pat, segs)
  {
    if '*' !in pattern {
      var pat, segs := Split(pattern, '/'), Split(normalized, '/');
      AtOrUnderIsSegmentPrefix(normalized, pattern);
      forall i | 0 <= i < |pat| ensures pat[i] != "*" {
        SegmentChars(pattern, i);
      }
    }
  }

  lemma {:induction false} SegmentChars(s: string, i: nat)
    requires i < |Split(s, '/')|
    ensures forall c | c in Split(s, '/')[i] :: c in s
  {
    SegmentCharsFrom(s, i);
  }

  lemma {:induction false} SegmentCharsFrom(s: string, i: nat)
    requires i < |Split(s, '/')|
    ensures forall c | c in Split(s, '/')[i] :: c in s
  {
    if s != "" {
      var rest := Split(s[1..], '/');
      assert s == [s[0]] + s[1..];
      if s[0] == '/' {
        if i > 0 { SegmentCharsFrom(s[1..], i - 1); }
      } else {
        SegmentCharsFrom(s[1..], i);
        assert Split(s, '/')[0] == [s[0]] + rest[0];
      }
    }
  }

  function Child(dir: string, name: string): string {
    if dir == "" then name else dir + "/" + name
  }

  lemma {:induction false} ChildSegments(dir: string, name: string)
    requires '/' !in name
    ensures dir != "" ==> Split(Child(dir, name), '/') == Split(dir, '/') + [name]
    ensures dir == "" ==> Split(Child(dir, name), '/') == [name]
  {
    SplitPlain(name, '/');
    if dir != "" {
      assert dir + "/" + name == dir + ['/'] + name;
      SplitConcat(dir, name, '/');
    }
  }

  /** A pattern starts with the config directory, so whatever it matches lies below it. */
  lemma PrivateIsBelowConfigDir(m: PathMapper, p: string)
    requires WellFormed(m) && IsPrivate(m, p) && StripLeadingSlash(p) == p
    ensures ConfigDirSlash(m) <= p
  {
    var i :| 0 <= i < |m.privatePatterns| && MatchesPrivatePattern(m.privatePatterns[i], p);
    var pattern := m.privatePatterns[i];
    var dir, pat, segs := Split(m.configDir, '/'), Split(pattern, '/'), Split(p, '/');
    MatchIsSegmentPrefix(pattern, p);
    PatternSegments(m, pattern);
    assert |segs| > |dir|;
    forall k | 0 <= k < |dir| ensures segs[k] == dir[k] {
      assert pat[k] == dir[k] && dir[k] in dir;
    }
    assert dir <= segs;
    AtOrUnderIsSegmentPrefix(p, m.configDir);
  }

  lemma {:induction false} PatternSegments(m: PathMapper, pattern: string)
    requires ConfigDirSlash(m) <= pattern
    ensures Split(pattern, '/') == Split(m.configDir, '/') + Split(pattern[|ConfigDirSlash(m)|..], '/')
    ensures |Split(pattern, '/')| > |Split(m.configDir, '/')|
  {
    var rest := pattern[|ConfigDirSlash(m)|..];
    assert pattern == m.configDir + ['/'] + rest;
    SplitConcat(m.configDir, rest, '/');
  }

  // ---------------------------------------------------------------- listing completeness

  /** A directory whose child is private although it is not is the immediate parent of a pattern. */
  lemma CrossingAbove(m: PathMapper, p: string, name: string)
    requires WellFormed(m) && Normal(p) && '/' !in name
    requires !IsPrivate(m, p) && IsPrivate(m, Child(p, name))
    ensures IsCrossingPoint(m, p)
  {
    var child := Child(p, name);
    NormalHasNoLeadingSlash(p);
    assert StripLeadingSlash(child) == child by { assert child[0] == p[0]; }
    var i :| 0 <= i < |m.privatePatterns| && MatchesPrivatePattern(m.privatePatterns[i], child);
    var pattern := m.privatePatterns[i];
    MatchIsSegmentPrefix(pattern, child);
    MatchIsSegmentPrefix(pattern, p);
    ChildSegments(p, name);
    var pat, segs := Split(pattern, '/'), Split(p, '/');
    assert !MatchesPrivatePattern(pattern, p);
    MatchOfPrefix(pat, segs, name);
    assert |pat| == |segs| + 1;
    assert '/' in pattern by { assert ConfigDirSlash(m)[|m.configDir|] == '/'; assert pattern[|m.configDir|] == '/'; }
    LastSegment(pattern);
    var parent := Split(ParentDirOf(pattern), '/');
    assert parent == pat[..|segs|];
    forall k | 0 <= k < |parent| ensures parent[k] == "*" || parent[k] == segs[k] {
      assert pat[k] == "*" || pat[k] == (segs + [name])[k];
    }
    assert MatchesPatternExact(ParentDirOf(pattern), p);
  }

  /** Exactly: a shared directory is a crossing point when something directly in it is private. */
  lemma CrossingExactly(m: PathMapper, p: string)
    requires WellFormed(m) && Normal(p)
    ensures IsCrossingPoint(m, p) <==> !IsPrivate(m, p) && exists name :: '/' !in name && IsPrivate(m, Child(p, name))
  {
    NormalHasNoLeadingSlash(p);
    if IsCrossingPoint(m, p) {
      var i :| 0 <= i < |m.privatePatterns| && MatchesPatternExact(ParentDirOf(m.privatePatterns[i]), p);
      var name := PrivateChildOf(m, p, i);
      assert IsPrivate(m, Child(p, name));
    }
    if !IsPrivate(m, p) && exists name :: '/' !in name && IsPrivate(m, Child(p, name)) {
      var name :| '/' !in name && IsPrivate(m, Child(p, name));
      CrossingAbove(m, p, name);
    }
  }

  lemma PrivateChildOf(m: PathMapper, p: string, i: nat) returns (name: string)
    requires WellFormed(m) && Normal(p)
    requires i < |m.privatePatterns| && MatchesPatternExact(ParentDirOf(m.privatePatterns[i]), p)
    ensures '/' !in name && IsPrivate(m, Child(p, name))
  {
    var pattern := m.privatePatterns[i];
    assert '/' in pattern by { assert ConfigDirSlash(m)[|m.configDir|] == '/'; assert pattern[|m.configDir|] == '/'; }
    LastSegment(pattern);
    var pat, segs := Split(pattern, '/'), Split(p, '/');
    name := pat[|segs|];
    assert name in pat;
    ChildSegments(p, name);
    ChildHasNoLeadingSlash(p, name);
    assert forall k | 0 <= k < |segs| :: pat[k] == Split(ParentDirOf(pattern), '/')[k];
    assert SegmentsMatch(pat, segs + [name]);
    MatchIsSegmentPrefix(pattern, Child(p, name));
  }

  lemma MatchOfPrefix(pat: seq<string>, segs: seq<string>, name: string)
    ensures |pat| <= |segs| ==> (SegmentsMatch(pat, segs + [name]) <==> SegmentsMatch(pat, segs))
  {
    if |pat| <= |segs| {
      assert forall k | 0 <= k < |pat| :: (segs + [name])[k] == segs[k];
    }
  }

  /**
   Listing completeness: wherever a child of `p` is stored, it is a direct child, under its own name,
   of a directory that listing `p` reads.
   */
  lemma ChildIsListed(m: PathMapper, p: string, name: string)
    requires WellFormed(m) && (p == "" || Normal(p)) && name != "" && '/' !in name
    ensures var plan := ResolveListing(m, p);
            var remote := ToRemote(m, Child(p, name));
            if !IsPrivate(m, p) && IsPrivate(m, Child(p, name))
            then plan.userSubtree.Some? && remote == Child(plan.userSubtree.value, name)
            else remote == Child(plan.primary, name)
  {
    if p == "" {
      TopLevelIsShared(m, name);
      TopLevelIsShared(m, "");
    } else {
      ChildHasNoLeadingSlash(p, name);
      if IsPrivate(m, p) {
        PrivateChild(m, p, name);
      } else if IsPrivate(m, Child(p, name)) {
        CrossingAbove(m, p, name);
        PrivateIsBelowConfigDir(m, Child(p, name));
        CrossingSubtree(m, p, name);
      }
    }
  }

  lemma ChildHasNoLeadingSlash(p: string, name: string)
    requires Normal(p)
    ensures StripLeadingSlash(p) == p && StripLeadingSlash(Child(p, name)) == Child(p, name)
  {
    NormalHasNoLeadingSlash(p);
    assert Child(p, name)[0] == p[0];
  }

  /** A child of a private directory is stored in the stored directory. */
  lemma PrivateChild(m: PathMapper, p: string, name: string)
    requires WellFormed(m) && Normal(p) && IsPrivate(m, p) && '/' !in name
    ensures IsPrivate(m, Child(p, name)) && ToRemote(m, Child(p, name)) == Child(ToRemote(m, p), name)
  {
    ChildHasNoLeadingSlash(p, name);
    PrivateBelow(m, p, name);
    PrivateIsBelowConfigDir(m, p);
    assert Child(p, name)[|ConfigDirSlash(m)|..] == p[|ConfigDirSlash(m)|..] + "/" + name;
  }

  /** Below a private directory everything is private. */
  lemma PrivateBelow(m: PathMapper, p: string, name: string)
    requires Normal(p) && IsPrivate(m, p) && '/' !in name
    ensures IsPrivate(m, Child(p, name))
  {
    NormalHasNoLeadingSlash(p);
    var child := Child(p, name);
    assert StripLeadingSlash(child) == child by { assert child[0] == p[0]; }
    var i :| 0 <= i < |m.privatePatterns| && MatchesPrivatePattern(m.privatePatterns[i], p);
    var pattern := m.privatePatterns[i];
    MatchIsSegmentPrefix(pattern, p);
    MatchIsSegmentPrefix(pattern, child);
    ChildSegments(p, name);
  }

  /** Nothing at the top level of the vault is private. */
  lemma TopLevelIsShared(m: PathMapper, name: string)
    requires WellFormed(m) && '/' !in name
    ensures !IsPrivate(m, name) && StripLeadingSlash(name) == name
  {
    SplitPlain(name, '/');
    forall i | 0 <= i < |m.privatePatterns| ensures !MatchesPrivatePattern(m.privatePatterns[i], name) {
      MatchIsSegmentPrefix(m.privatePatterns[i], name);
      PatternSegments(m, m.privatePatterns[i]);
    }
  }

  /** The subtree a crossing point merges in is where its private children live. */
  lemma CrossingSubtree(m: PathMapper, p: string, name: string)
    requires WellFormed(m) && Normal(p) && name != "" && '/' !in name
    requires ConfigDirSlash(m) <= Child(p, name)
    ensures p == m.configDir || ConfigDirSlash(m) <= p
    ensures var rest := if ConfigDirSlash(m) <= p then p[|ConfigDirSlash(m)|..] else "";
            PrivateRoot(m) + "/" + Rest(m, Child(p, name)) ==
            Child(if rest != "" then PrivateRoot(m) + "/" + rest else PrivateRoot(m), name)
  {
    var child, n := Child(p, name), |m.configDir|;
    NormalHasNoLeadingSlash(p);
    assert child[..n] == m.configDir && child[n] == '/';
    assert forall k | |p| < k < |child| :: child[k] == name[k - |p| - 1];
    if n == |p| {
      assert p == m.configDir;
      assert Rest(m, child) == name;
    } else {
      assert p[..n + 1] == child[..n + 1];
      assert Rest(m, child) == p[n + 1..] + "/" + name;
    }
  }

  // ---------------------------------------------------------------- round trip

  /** No pattern's first component below the config directory is the `user` directory or a wildcard. */
  ghost predicate LeavesUserDirAlone(m: PathMapper) {
    forall i | 0 <= i < |m.privatePatterns| :: PatternLeavesUserDirAlone(m.privatePatterns[i], m.configDir)
  }

  predicate InUserDir(m: PathMapper, p: string) {
    m.configDir + "/" + PRIVATE_USER_SUBDIR + "/" <= p
  }

  lemma {:induction false} UserDirSegments(m: PathMapper, p: string)
    requires InUserDir(m, p)
    ensures var rest := p[|m.configDir + "/" + PRIVATE_USER_SUBDIR + "/"|..];
            Split(p, '/') == Split(m.configDir, '/') + [PRIVATE_USER_SUBDIR] + Split(rest, '/')
  {
    var n := |m.configDir + "/" + PRIVATE_USER_SUBDIR + "/"|;
    var rest := p[n..];
    var below := PRIVATE_USER_SUBDIR + ['/'] + rest;
    assert p == p[..n] + rest;
    assert p == m.configDir + ['/'] + below;
    SplitConcat(m.configDir, below, '/');
    SplitConcat(PRIVATE_USER_SUBDIR, rest, '/');
    SplitPlain(PRIVATE_USER_SUBDIR, '/');
  }

  lemma UserDirIsNotPrivate(m: PathMapper, p: string)
    requires WellFormed(m) && LeavesUserDirAlone(m) && InUserDir(m, p)
    ensures StripLeadingSlash(p) == p && !IsPrivate(m, p)
  {
    assert p[0] == m.configDir[0];
    UserDirSegments(m, p);
    var dir := Split(m.configDir, '/');
    forall i | 0 <= i < |m.privatePatterns| ensures !MatchesPrivatePattern(m.privatePatterns[i], p) {
      MatchIsSegmentPrefix(m.privatePatterns[i], p);
      assert Split(p, '/')[|dir|] == PRIVATE_USER_SUBDIR;
    }
  }

  /** A private path is stored in its client's own part of the user directory. */
  lemma PrivateImage(m: PathMapper, p: string)
    requires WellFormed(m) && StripLeadingSlash(p) == p && IsPrivate(m, p)
    ensures PrivateRoot(m) + "/" <= ToRemote(m, p) && InUserDir(m, ToRemote(m, p))
    ensures ToVault(m, ToRemote(m, p)) == p
  {
    PrivateIsBelowConfigDir(m, p);
    var prefix, r := PrivateRoot(m) + "/", ToRemote(m, p);
    assert r == prefix + p[|ConfigDirSlash(m)|..];
    assert r[|prefix|..] == p[|ConfigDirSlash(m)|..];
    var userPrefix := m.configDir + "/" + PRIVATE_USER_SUBDIR + "/";
    assert prefix == userPrefix + m.clientId + "/";
    assert r[..|userPrefix|] == userPrefix;
  }

  /** The round trip holds for exactly the paths that are not already in this client's private subtree. */
  lemma RoundTrip(m: PathMapper, p: string)
    requires WellFormed(m) && LeavesUserDirAlone(m) && StripLeadingSlash(p) == p
    ensures ToVault(m, ToRemote(m, p)) == p <==> !(PrivateRoot(m) + "/" <= p)
  {
    var prefix := PrivateRoot(m) + "/";
    if prefix <= p {
      OwnPrefixInUserDir(m, p);
      UserDirIsNotPrivate(m, p);
      assert |ToVault(m, p)| < |p|;
    } else if IsPrivate(m, p) {
      PrivateImage(m, p);
    }
  }

  lemma OwnPrefixInUserDir(m: PathMapper, p: string)
    requires PrivateRoot(m) + "/" <= p
    ensures InUserDir(m, p)
  {
    var userPrefix := m.configDir + "/" + PRIVATE_USER_SUBDIR + "/";
    assert PrivateRoot(m) + "/" == userPrefix + m.clientId + "/";
    assert p[..|userPrefix|] == userPrefix;
  }

  lemma ToRemoteInjective(m: PathMapper, p: string, q: string)
    requires WellFormed(m) && LeavesUserDirAlone(m) && StripLeadingSlash(p) == p && StripLeadingSlash(q) == q
    requires !(PrivateRoot(m) + "/" <= p) && !(PrivateRoot(m) + "/" <= q)
    requires ToRemote(m, p) == ToRemote(m, q)
    ensures p == q
  {
    RoundTrip(m, p);
    RoundTrip(m, q);
  }

  lemma ToRemoteIdempotent(m: PathMapper, p: string)
    requires WellFormed(m) && LeavesUserDirAlone(m) && StripLeadingSlash(p) == p
    ensures ToRemote(m, ToRemote(m, p)) == ToRemote(m, p)
  {
    if IsPrivate(m, p) {
      PrivateImage(m, p);
      UserDirIsNotPrivate(m, ToRemote(m, p));
    }
  }

  lemma {:induction false} OwnSegments(m: PathMapper, r: string)
    requires PrivateRoot(m) + "/" <= r && '/' !in m.clientId
    ensures var segs, n := Split(r, '/'), |Split(m.configDir, '/')|;
            |segs| > n + 2 && segs[n + 1] == m.clientId
  {
    OwnPrefixInUserDir(m, r);
    UserDirSegments(m, r);
    var userPrefix := m.configDir + "/" + PRIVATE_USER_SUBDIR + "/";
    var prefix := PrivateRoot(m) + "/";
    assert prefix == userPrefix + (m.clientId + "/");
    var rest, tail := r[|userPrefix|..], r[|prefix|..];
    assert r == prefix + tail;
    assert rest == m.clientId + ['/'] + tail;
    SplitConcat(m.clientId, tail, '/');
    SplitPlain(m.clientId, '/');
  }

  /** Two clients never store a private path in the same place. */
  lemma PrivateImagesDisjoint(m: PathMapper, other: PathMapper, p: string, q: string)
    requires WellFormed(m) && WellFormed(other) && m.configDir == other.configDir
    requires m.clientId != other.clientId && '/' !in m.clientId && '/' !in other.clientId
    requires StripLeadingSlash(p) == p && StripLeadingSlash(q) == q && IsPrivate(m, p) && IsPrivate(other, q)
    ensures ToRemote(m, p) != ToRemote(other, q)
  {
    PrivateImage(m, p);
    PrivateImage(other, q);
    OwnSegments(m, ToRemote(m, p));
    OwnSegments(other, ToRemote(other, q));
  }

  ghost predicate PatternLeavesUserDirAlone(pattern: string, configDir: string) {
    var pat, n := Split(pattern, '/'), |Split(configDir, '/')|;
    |pat| > n && pat[n] != "*" && pat[n] != PRIVATE_USER_SUBDIR
  }

  /**
   The default patterns leave the user directory alone if and only if the configuration directory is not
   itself named `plugins`: there the pattern for plugin data counts as already qualified.
   */
  lemma {:induction false} DefaultsLeaveUserDirAlone(clientId: string, configDir: string)
    requires configDir != "" && "*" !in Split(configDir, '/') && configDir[0] != '/'
    ensures WellFormed(Make(clientId, configDir, DEFAULT_PRIVATE_PATTERN_BASENAMES))
    ensures LeavesUserDirAlone(Make(clientId, configDir, DEFAULT_PRIVATE_PATTERN_BASENAMES)) <==> configDir != "plugins"
  {
    var m := Make(clientId, configDir, DEFAULT_PRIVATE_PATTERN_BASENAMES);
    QualifiedIsWellFormed(clientId, configDir, DEFAULT_PRIVATE_PATTERN_BASENAMES);
    if configDir == "plugins" {
      PluginDataComponents();
      SplitPlain("plugins", '/');
      KeptPattern(m, 6, DEFAULT_PRIVATE_PATTERN_BASENAMES[6]);
    } else {
      DefaultPatternsQualified(m);
    }
  }

  lemma {:induction false} QualifiedIsWellFormed(clientId: string, configDir: string, patterns: seq<string>)
    requires configDir != "" && "*" !in Split(configDir, '/') && configDir[0] != '/'
    ensures WellFormed(Make(clientId, configDir, patterns))
  {
  }

  /** A pattern that already starts with the configuration directory is kept, wildcard and all. */
  lemma {:induction false} KeptPattern(m: PathMapper, i: nat, b: string)
    requires i < |m.privatePatterns| && m.privatePatterns[i] == Qualify(m.configDir, b)
    requires Split(m.configDir, '/') == [m.configDir] && Split(b, '/') == [m.configDir, "*", "data.json"]
    ensures !LeavesUserDirAlone(m)
  {
    AtOrUnderIsSegmentPrefix(b, m.configDir);
    assert b != m.configDir;
    assert !PatternLeavesUserDirAlone(m.privatePatterns[i], m.configDir);
  }

  lemma DefaultPatternsQualified(m: PathMapper)
    requires m == Make(m.clientId, m.configDir, DEFAULT_PRIVATE_PATTERN_BASENAMES)
    requires "*" !in Split(m.configDir, '/') && m.configDir != "plugins"
    ensures LeavesUserDirAlone(m)
  {
    forall i | 0 <= i < |m.privatePatterns| ensures PatternLeavesUserDirAlone(m.privatePatterns[i], m.configDir) {
      DefaultComponents(i);
      QualifiedLeavesUserDirAlone(m.configDir, DEFAULT_PRIVATE_PATTERN_BASENAMES[i]);
    }
  }

  /** One component of its own, or a plugin's data file. */
  ghost predicate PlainOrPluginData(b: string) {
    || ('/' !in b && b != "*" && b != PRIVATE_USER_SUBDIR)
    || Split(b, '/') == ["plugins", "*", "data.json"]
  }

  lemma DefaultComponents(i: nat)
    requires i < |DEFAULT_PRIVATE_PATTERN_BASENAMES|
    ensures PlainOrPluginData(DEFAULT_PRIVATE_PATTERN_BASENAMES[i])
  {
    if i == 6 {
      PluginDataComponents();
    } else {
      DefaultIsPlain(i);
    }
  }

  lemma DefaultIsPlain(i: nat)
    requires i < |DEFAULT_PRIVATE_PATTERN_BASENAMES| && i != 6
    ensures '/' !in DEFAULT_PRIVATE_PATTERN_BASENAMES[i]
    ensures DEFAULT_PRIVATE_PATTERN_BASENAMES[i] != "*" && DEFAULT_PRIVATE_PATTERN_BASENAMES[i] != PRIVATE_USER_SUBDIR
  {
  }

  lemma PluginDataComponents()
    ensures Split(DEFAULT_PRIVATE_PATTERN_BASENAMES[6], '/') == ["plugins", "*", "data.json"]
  {
    SplitThree("plugins", "*", "data.json", DEFAULT_PRIVATE_PATTERN_BASENAMES[6]);
  }

  lemma {:induction false} SplitThree(x: string, y: string, z: string, whole: string)
    requires '/' !in x && '/' !in y && '/' !in z && whole == x + "/" + y + "/" + z
    ensures Split(whole, '/') == [x, y, z]
  {
    var tail := y + ['/'] + z;
    assert whole == x + ['/'] + tail;
    SplitConcat(x, tail, '/');
    SplitConcat(y, z, '/');
    SplitPlain(x, '/');
    SplitPlain(y, '/');
    SplitPlain(z, '/');
  }

  lemma {:induction false} QualifiedLeavesUserDirAlone(configDir: string, b: string)
    requires PlainOrPluginData(b) && "*" !in Split(configDir, '/') && configDir != "plugins"
    ensures Qualify(configDir, b) == configDir + "/" + b && PatternLeavesUserDirAlone(configDir + "/" + b, configDir)
  {
    NotQualifiedYet(configDir, b);
    assert configDir + "/" + b == configDir + ['/'] + b;
    SplitConcat(configDir, b, '/');
    if '/' !in b {
      SplitPlain(b, '/');
    }
  }

  lemma {:induction false} NotQualifiedYet(configDir: string, b: string)
    requires PlainOrPluginData(b) && "*" !in Split(configDir, '/') && configDir != "plugins"
    ensures !(configDir + "/" <= b)
  {
    if '/' !in b {
      assert (configDir + "/")[|configDir|] == '/';
    } else {
      AtOrUnderIsSegmentPrefix(b, configDir);
      SplitPlain("plugins", '/');
      JoinSplit(configDir, '/');
      var dir := Split(configDir, '/');
      assert dir != ["plugins"] by { assert Join(["plugins"], '/') == "plugins"; }
      assert |dir| >= 2 ==> dir[1] in dir;
      assert configDir + "/" <= b ==> dir <= ["plugins", "*", "data.json"];
    }
  }
}
