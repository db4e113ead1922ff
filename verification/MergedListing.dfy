/**
 Listing a vault directory: the entries of this client's subtree first, then those of the shared
 directory, one entry a name. Completeness is stated against the remote tree both listings come from.
 */
module MergedListing {
  import opened Lru
  import opened PathMapper
  import opened Text

  datatype RemoteEntry = RemoteEntry(name: string, isDirectory: bool)

  /** Whether each existing remote path is a directory. */
  type RemoteKinds = map<string, bool>

  datatype ListedFiles = ListedFiles(files: seq<string>, folders: seq<string>)

  function Names(entries: seq<RemoteEntry>): set<string> {
    set e | e in entries :: e.name
  }

  /** Each name under the kind it comes with first, in order. */
  function FirstByName(dir: string, entries: seq<RemoteEntry>): ListedFiles {
    if entries == [] then ListedFiles([], [])
    else
      var init, last := entries[..|entries| - 1], entries[|entries| - 1];
      if last.name in Names(init) then FirstByName(dir, init) else Emit(FirstByName(dir, init), dir, last)
  }

  function Emit(listed: ListedFiles, dir: string, entry: RemoteEntry): ListedFiles {
    if entry.isDirectory then listed.(folders := listed.folders + [Child(dir, entry.name)])
    else listed.(files := listed.files + [Child(dir, entry.name)])
  }

  function Without(entries: seq<RemoteEntry>, name: Option<string>): seq<RemoteEntry> {
    if entries == [] then []
    else
      var last := entries[|entries| - 1];
      Without(entries[..|entries| - 1], name) + if name == Some(last.name) then [] else [last]
  }

  /** The listing of `dir` under a plan: the subtree's entries (none when its listing failed), then the shared ones. */
  function Merged(dir: string, plan: ListPlan, primary: seq<RemoteEntry>, user: Option<seq<RemoteEntry>>): ListedFiles {
    FirstByName(dir, UserEntries(plan, user) + Without(primary, plan.hideUserDirName))
  }

  function UserEntries(plan: ListPlan, user: Option<seq<RemoteEntry>>): seq<RemoteEntry> {
    if plan.userSubtree.Some? && user.Some? then user.value else []
  }

  lemma {:induction false} OneMoreEntry(dir: string, entries: seq<RemoteEntry>, i: nat)
    requires i < |entries|
    ensures Names(entries[..i + 1]) == Names(entries[..i]) + {entries[i].name}
    ensures FirstByName(dir, entries[..i + 1])
            == var before := FirstByName(dir, entries[..i]);
               if entries[i].name in Names(entries[..i]) then before else Emit(before, dir, entries[i])
  {
    assert entries[..i + 1] == entries[..i] + [entries[i]] && entries[..i + 1][..i] == entries[..i];
  }

  method HideUserDir(primary: seq<RemoteEntry>, hidden: Option<string>) returns (kept: seq<RemoteEntry>)
    ensures kept == Without(primary, hidden)
  {
    kept := [];
    for i := 0 to |primary|
      invariant kept == Without(primary[..i], hidden)
    {
      assert primary[..i + 1][..i] == primary[..i];
      if hidden != Some(primary[i].name) {
        kept := kept + [primary[i]];
      }
    }
    assert primary[..|primary|] == primary;
  }

  method List(dir: string, plan: ListPlan, primary: seq<RemoteEntry>, user: Option<seq<RemoteEntry>>)
    returns (listed: ListedFiles)
    ensures listed == Merged(dir, plan, primary, user)
  {
    var kept := HideUserDir(primary, plan.hideUserDirName);
    var entries := UserEntries(plan, user) + kept;
    var files, folders, seen := [], [], {};
    for i := 0 to |entries|
      invariant seen == Names(entries[..i])
      invariant ListedFiles(files, folders) == FirstByName(dir, entries[..i])
    {
      var entry := entries[i];
      OneMoreEntry(dir, entries, i);
      if entry.name !in seen {
        seen := seen + {entry.name};
        if entry.isDirectory {
          folders := folders + [Child(dir, entry.name)];
        } else {
          files := files + [Child(dir, entry.name)];
        }
      }
    }
    assert entries[..|entries|] == entries;
    listed := ListedFiles(files, folders);
  }

  // ---------------------------------------------------------------- what ends up in the listing

  /** The kind under which `name` comes first, if it comes at all. */
  function KindOf(entries: seq<RemoteEntry>, name: string): Option<bool> {
    if entries == [] then None
    else if entries[0].name == name then Some(entries[0].isDirectory)
    else KindOf(entries[1..], name)
  }

  lemma {:induction false} KindOfConcat(a: seq<RemoteEntry>, b: seq<RemoteEntry>, name: string)
    ensures KindOf(a + b, name) == if KindOf(a, name).Some? then KindOf(a, name) else KindOf(b, name)
  {
    if a == [] {
      assert a + b == b;
    } else {
      KindOfConcat(a[1..], b, name);
      assert (a + b)[1..] == a[1..] + b;
    }
  }

  lemma {:induction false} KindOfNames(entries: seq<RemoteEntry>, name: string)
    ensures KindOf(entries, name).Some? <==> name in Names(entries)
  {
    if entries != [] {
      KindOfNames(entries[1..], name);
      assert entries == [entries[0]] + entries[1..];
    }
  }

  lemma {:induction false} WithoutKinds(entries: seq<RemoteEntry>, hidden: Option<string>, name: string)
    ensures KindOf(Without(entries, hidden), name) == if hidden == Some(name) then None else KindOf(entries, name)
  {
    if entries != [] {
      var init, last := entries[..|entries| - 1], entries[|entries| - 1];
      WithoutKinds(init, hidden, name);
      assert entries == init + [last];
      KindOfConcat(init, [last], name);
      KindOfConcat(Without(init, hidden), [last], name);
      assert Without(init, hidden) + [] == Without(init, hidden);
    }
  }

  lemma ChildInjective(dir: string, a: string, b: string)
    ensures Child(dir, a) == Child(dir, b) ==> a == b
  {
    if dir != "" && Child(dir, a) == Child(dir, b) {
      assert a == Child(dir, a)[|dir| + 1..] && b == Child(dir, b)[|dir| + 1..];
    }
  }

  lemma CountSnoc(a: seq<string>, b: seq<string>, x: string)
    ensures multiset(a + b)[x] == multiset(a)[x] + multiset(b)[x]
  {
  }

  /** De-duplication lists every name once, under the kind it first comes with. */
  lemma {:induction false} EachNameOnce(dir: string, entries: seq<RemoteEntry>, name: string)
    ensures multiset(FirstByName(dir, entries).files)[Child(dir, name)] == (if KindOf(entries, name) == Some(false) then 1 else 0)
    ensures multiset(FirstByName(dir, entries).folders)[Child(dir, name)] == (if KindOf(entries, name) == Some(true) then 1 else 0)
  {
    if entries != [] {
      var init, last := entries[..|entries| - 1], entries[|entries| - 1];
      EachNameOnce(dir, init, name);
      assert entries == init + [last];
      KindOfConcat(init, [last], name);
      KindOfNames(init, last.name);
      EmitCounts(FirstByName(dir, init), dir, last, name);
    }
  }

  lemma EmitCounts(listed: ListedFiles, dir: string, entry: RemoteEntry, name: string)
    ensures var after, one := Emit(listed, dir, entry), if entry.name == name then 1 else 0;
            && multiset(after.files)[Child(dir, name)]
               == multiset(listed.files)[Child(dir, name)] + (if entry.isDirectory then 0 else one)
            && multiset(after.folders)[Child(dir, name)]
               == multiset(listed.folders)[Child(dir, name)] + (if entry.isDirectory then one else 0)
  {
    ChildInjective(dir, name, entry.name);
    CountSnoc(listed.files, [Child(dir, entry.name)], Child(dir, name));
    CountSnoc(listed.folders, [Child(dir, entry.name)], Child(dir, name));
  }

  function TimesListed(listed: ListedFiles, path: string): nat {
    multiset(listed.files)[path] + multiset(listed.folders)[path]
  }

  lemma SomeBool(kind: Option<bool>)
    ensures kind == None || kind == Some(true) || kind == Some(false)
  {
    match kind
    case None =>
    case Some(b) => assert kind == Some(b);
  }

  lemma MergedPaths(dir: string, plan: ListPlan, primary: seq<RemoteEntry>, user: Option<seq<RemoteEntry>>, name: string)
    ensures multiset(Merged(dir, plan, primary, user).files)[Child(dir, name)]
            == if ListedKind(plan, primary, user, name) == Some(false) then 1 else 0
    ensures multiset(Merged(dir, plan, primary, user).folders)[Child(dir, name)]
            == if ListedKind(plan, primary, user, name) == Some(true) then 1 else 0
    ensures TimesListed(Merged(dir, plan, primary, user), Child(dir, name))
            == if ListedKind(plan, primary, user, name).Some? then 1 else 0
  {
    var entries := UserEntries(plan, user) + Without(primary, plan.hideUserDirName);
    EachNameOnce(dir, entries, name);
    KindOfConcat(UserEntries(plan, user), Without(primary, plan.hideUserDirName), name);
    WithoutKinds(primary, plan.hideUserDirName, name);
    SomeBool(ListedKind(plan, primary, user, name));
  }

  /** Which of the two listings decides about `name`. */
  function ListedKind(plan: ListPlan, primary: seq<RemoteEntry>, user: Option<seq<RemoteEntry>>, name: string): Option<bool> {
    if KindOf(UserEntries(plan, user), name).Some? then KindOf(UserEntries(plan, user), name)
    else if plan.hideUserDirName == Some(name) then None
    else KindOf(primary, name)
  }

  // ---------------------------------------------------------------- against the remote tree

  function KindAt(tree: RemoteKinds, path: string): Option<bool> {
    if path in tree then Some(tree[path]) else None
  }

  /** `entries` is what listing `dir` on `tree` answers. */
  ghost predicate Lists(tree: RemoteKinds, dir: string, entries: seq<RemoteEntry>) {
    forall name: string | name != "" && '/' !in name :: KindOf(entries, name) == KindAt(tree, Child(dir, name))
  }

  ghost predicate Answers(tree: RemoteKinds, plan: ListPlan, primary: seq<RemoteEntry>, user: Option<seq<RemoteEntry>>) {
    && Lists(tree, plan.primary, primary)
    && (plan.userSubtree.Some? && user.Some? ==> Lists(tree, plan.userSubtree.value, user.value))
  }

  /** A child whose storage moved to this client's subtree although the directory itself is shared. */
  predicate Redirected(m: PathMapper, dir: string, name: string) {
    !IsPrivate(m, dir) && IsPrivate(m, Child(dir, name))
  }

  /**
   Completeness. A child that exists where it is stored is listed exactly once; the only ones lost
   are the hidden `user` directory of a shared directory, and a redirected child when listing the
   subtree failed and no shared entry happens to carry its name.
   */
  lemma ExistingChildIsListed(m: PathMapper, tree: RemoteKinds, dir: string, name: string,
                              primary: seq<RemoteEntry>, user: Option<seq<RemoteEntry>>)
    requires WellFormed(m) && (dir == "" || Normal(dir)) && name != "" && '/' !in name
    requires Answers(tree, ResolveListing(m, dir), primary, user)
    requires ToRemote(m, Child(dir, name)) in tree
    ensures TimesListed(Merged(dir, ResolveListing(m, dir), primary, user), Child(dir, name))
            == if Lost(m, tree, dir, name, user) then 0 else 1
  {
    var plan := ResolveListing(m, dir);
    ChildIsListed(m, dir, name);
    MergedPaths(dir, plan, primary, user, name);
    if Redirected(m, dir, name) {
      if dir == "" { TopLevelIsShared(m, name); } else { NormalHasNoLeadingSlash(dir); }
      PrimaryIsOwnPath(m, dir);
    }
  }

  predicate Lost(m: PathMapper, tree: RemoteKinds, dir: string, name: string, user: Option<seq<RemoteEntry>>) {
    var plan := ResolveListing(m, dir);
    if Redirected(m, dir, name) then
      user.None? && (plan.hideUserDirName == Some(name) || Child(dir, name) !in tree)
    else
      plan.hideUserDirName == Some(name) && KindOf(UserEntries(plan, user), name).None?
  }

  lemma PrimaryIsOwnPath(m: PathMapper, dir: string)
    requires !IsPrivate(m, dir) && StripLeadingSlash(StripLeadingSlash(dir)) == StripLeadingSlash(dir)
    ensures ResolveListing(m, dir).primary == dir
  {
  }

  /** Only a directory that is the configuration directory hides anything, and only `user`. */
  lemma OnlyUserDirIsHidden(m: PathMapper, dir: string)
    requires Normal(dir)
    ensures ResolveListing(m, dir).hideUserDirName.Some? ==>
              dir == m.configDir && ResolveListing(m, dir).hideUserDirName == Some(PRIVATE_USER_SUBDIR)
  {
    NormalHasNoLeadingSlash(dir);
  }

  /**
   The other direction fails for leftovers. A listed child exists where it is stored unless it is a
   redirected child of which only a shared copy exists, or a shared child of which only a copy in the
   client's subtree exists; and it is listed under its true kind if it is the deciding listing's.
   */
  lemma ListedChildExists(m: PathMapper, tree: RemoteKinds, dir: string, name: string,
                          primary: seq<RemoteEntry>, user: seq<RemoteEntry>)
    requires WellFormed(m) && (dir == "" || Normal(dir)) && name != "" && '/' !in name
    requires Answers(tree, ResolveListing(m, dir), primary, Some(user))
    requires ListedKind(ResolveListing(m, dir), primary, Some(user), name).Some?
    ensures var plan := ResolveListing(m, dir);
            var inSubtree := plan.userSubtree.Some? && Child(plan.userSubtree.value, name) in tree;
            var listed := ListedKind(plan, primary, Some(user), name);
            var stored := KindAt(tree, ToRemote(m, Child(dir, name)));
            && (stored.None? <==> if Redirected(m, dir, name) then !inSubtree else inSubtree && Child(plan.primary, name) !in tree)
            && (stored.Some? ==> (listed == stored <==> Redirected(m, dir, name) || !inSubtree
                                                        || tree[Child(plan.userSubtree.value, name)] == stored.value))
  {
    ChildIsListed(m, dir, name);
  }

  /**
   Such a leftover, for any name private in the configuration directory: another machine's shared copy,
   with nothing in this client's subtree, is listed, and reading it finds nothing.
   */
  lemma SharedCopyIsListed(m: PathMapper, name: string)
    requires WellFormed(m) && Normal(m.configDir) && IsPrivate(m, Child(m.configDir, name))
    requires name != "" && '/' !in name && name != PRIVATE_USER_SUBDIR
    ensures var tree, primary, plan := map[Child(m.configDir, name) := false], [RemoteEntry(name, false)], ResolveListing(m, m.configDir);
            && Answers(tree, plan, primary, Some([]))
            && Merged(m.configDir, plan, primary, Some([])) == ListedFiles([Child(m.configDir, name)], [])
            && ToRemote(m, Child(m.configDir, name)) !in tree
  {
    ConfigDirCrosses(m, name);
    LeftoverListed(m, ResolveListing(m, m.configDir), name);
  }

  lemma LeftoverListed(m: PathMapper, plan: ListPlan, name: string)
    requires m.configDir != "" && name != "" && '/' !in name && name != PRIVATE_USER_SUBDIR
    requires plan == ListPlan(m.configDir, Some(PrivateRoot(m)), Some(PRIVATE_USER_SUBDIR))
    ensures var tree, primary := map[Child(m.configDir, name) := false], [RemoteEntry(name, false)];
            && Answers(tree, plan, primary, Some([]))
            && Merged(m.configDir, plan, primary, Some([])) == ListedFiles([Child(m.configDir, name)], [])
            && Child(PrivateRoot(m), name) !in tree
  {
    assert PrivateRoot(m) == m.configDir + "/user/" + m.clientId;
    OnlySharedCopy(m.configDir, m.clientId, name);
    ListedAlone(m.configDir, plan, name);
  }

  /** Under the default patterns `app.json` is such a name, whatever the client. */
  lemma AppSettingsArePrivate(m: PathMapper)
    requires m == Make(m.clientId, m.configDir, DEFAULT_PRIVATE_PATTERN_BASENAMES)
    requires Normal(m.configDir) && "*" !in Split(m.configDir, '/')
    ensures WellFormed(m) && IsPrivate(m, Child(m.configDir, "app.json"))
  {
    ThirdDefault(DEFAULT_PRIVATE_PATTERN_BASENAMES);
    PatternIsPrivate(m.clientId, m.configDir, DEFAULT_PRIVATE_PATTERN_BASENAMES, 2);
  }

  lemma ThirdDefault(patterns: seq<string>)
    requires patterns == DEFAULT_PRIVATE_PATTERN_BASENAMES
    ensures |patterns| > 2 && patterns[2] == "app.json" && '/' !in patterns[2]
  {
  }

  lemma {:induction false} PatternIsPrivate(clientId: string, configDir: string, patterns: seq<string>, i: nat)
    requires Normal(configDir) && "*" !in Split(configDir, '/')
    requires i < |patterns| && '/' !in patterns[i]
    ensures WellFormed(Make(clientId, configDir, patterns))
    ensures IsPrivate(Make(clientId, configDir, patterns), Child(configDir, patterns[i]))
  {
    var m, name := Make(clientId, configDir, patterns), patterns[i];
    NormalHasNoLeadingSlash(configDir);
    QualifiedIsWellFormed(clientId, configDir, patterns);
    ChildHasNoLeadingSlash(configDir, name);
    PrefixHasSlash(configDir, name);
    assert m.privatePatterns[i] == Child(configDir, name);
    MatchIsSegmentPrefix(m.privatePatterns[i], Child(configDir, name));
  }

  lemma PrefixHasSlash(dir: string, p: string)
    ensures dir + "/" <= p ==> '/' in p
  {
    if dir + "/" <= p { assert p[|dir|] == (dir + "/")[|dir|]; }
  }

  /** Listing the configuration directory, when something directly in it is private. */
  lemma ConfigDirCrosses(m: PathMapper, name: string)
    requires WellFormed(m) && Normal(m.configDir) && '/' !in name && IsPrivate(m, Child(m.configDir, name))
    ensures ResolveListing(m, m.configDir) == ListPlan(m.configDir, Some(PrivateRoot(m)), Some(PRIVATE_USER_SUBDIR))
    ensures ToRemote(m, Child(m.configDir, name)) == Child(PrivateRoot(m), name)
  {
    NormalHasNoLeadingSlash(m.configDir);
    ChildHasNoLeadingSlash(m.configDir, name);
    if IsPrivate(m, m.configDir) { PrivateIsBelowConfigDir(m, m.configDir); }
    CrossingAbove(m, m.configDir, name);
    assert Rest(m, Child(m.configDir, name)) == name;
  }

  lemma OnlySharedCopy(dir: string, clientId: string, name: string)
    requires dir != "" && name != "" && '/' !in name
    ensures var tree := map[Child(dir, name) := false];
            && Lists(tree, dir, [RemoteEntry(name, false)])
            && Lists(tree, dir + "/user/" + clientId, [])
            && Child(dir + "/user/" + clientId, name) !in tree
  {
    var root, primary := dir + "/user/" + clientId, [RemoteEntry(name, false)];
    var tree := map[Child(dir, name) := false];
    forall other: string | other != "" && '/' !in other
      ensures KindOf(primary, other) == KindAt(tree, Child(dir, other))
    {
      ChildInjective(dir, other, name);
      assert primary[1..] == [];
    }
    forall other: string ensures Child(root, other) != Child(dir, name) {
      DeeperThanChild(dir, clientId, other, name);
    }
  }

  lemma DeeperThanChild(dir: string, clientId: string, other: string, name: string)
    requires dir != "" && '/' !in name
    ensures Child(dir + "/user/" + clientId, other) != Child(dir, name)
  {
    var deep, flat := Child(dir + "/user/" + clientId, other), Child(dir, name);
    assert deep[|dir| + 5] == '/';
    if |name| > 4 { assert flat[|dir| + 5] == name[4]; }
  }

  lemma ListedAlone(dir: string, plan: ListPlan, name: string)
    requires plan.hideUserDirName != Some(name)
    ensures Merged(dir, plan, [RemoteEntry(name, false)], Some([])) == ListedFiles([Child(dir, name)], [])
  {
    var primary := [RemoteEntry(name, false)];
    assert primary[..0] == [] && Without([], plan.hideUserDirName) == [];
    assert Without(primary, plan.hideUserDirName) == primary && [] + primary == primary;
    assert FirstByName(dir, []) == ListedFiles([], []);
  }
}
