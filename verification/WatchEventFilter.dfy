/**
 What becomes of a change the daemon reports at a remote path: dropped, or handed to Obsidian under
 its vault path.
 */
module WatchEventFilter {
  import opened Lru
  import opened Text
  import opened PathMapper

  const TMP_PREFIX := ".rsh-write-"
  const TMP_SUFFIX := ".tmp"

  datatype WatchEventAction = WatchEventAction(vaultPath: string, remotePath: string)

  function Basename(path: string): string {
    if '/' in path then path[LastSlash(path) + 1..] else path
  }

  predicate LooksLikeAtomicWriteTmp(path: string) {
    var name := Basename(path);
    TMP_PREFIX <= name && EndsWith(name, TMP_SUFFIX)
  }

  predicate EndsWith(s: string, suffix: string) {
    |s| >= |suffix| && s[|s| - |suffix|..] == suffix
  }

  function InterpretWatchEvent(remotePath: string, pathMapper: Option<PathMapper>): Option<WatchEventAction> {
    if LooksLikeAtomicWriteTmp(remotePath) then None
    else if pathMapper.None? then Some(WatchEventAction(remotePath, remotePath))
    else
      var m := pathMapper.value;
      var userRootRel := m.configDir + "/" + PRIVATE_USER_SUBDIR;
      if userRootRel + "/" + m.clientId + "/" <= remotePath then
        Some(WatchEventAction(ToVault(m, remotePath), remotePath))
      else if remotePath == userRootRel || userRootRel + "/" <= remotePath then None
      else Some(WatchEventAction(remotePath, remotePath))
  }

  lemma {:induction false} BasenameIsLastSegment(path: string)
    ensures Split(path, '/')[|Split(path, '/')| - 1] == Basename(path)
  {
    if '/' in path {
      LastSegment(path);
    } else {
      SplitPlain(path, '/');
    }
  }

  lemma BasenameBelow(dir: string, rest: string)
    ensures Basename(dir + "/" + rest) == Basename(rest)
  {
    assert dir + ['/'] + rest == dir + "/" + rest;
    BasenameIsLastSegment(dir + "/" + rest);
    BasenameIsLastSegment(rest);
    SplitConcat(dir, rest, '/');
  }

  lemma TmpLookIsKept(m: PathMapper, p: string)
    requires WellFormed(m) && StripLeadingSlash(p) == p
    ensures LooksLikeAtomicWriteTmp(ToRemote(m, p)) <==> LooksLikeAtomicWriteTmp(p)
  {
    if IsPrivate(m, p) {
      PrivateIsBelowConfigDir(m, p);
      var rest := p[|ConfigDirSlash(m)|..];
      assert p == m.configDir + "/" + rest;
      BasenameBelow(m.configDir, rest);
      BasenameBelow(PrivateRoot(m), rest);
    }
  }

  lemma UserDirItselfIsShared(m: PathMapper)
    requires WellFormed(m) && LeavesUserDirAlone(m)
    ensures !IsPrivate(m, m.configDir + "/" + PRIVATE_USER_SUBDIR)
  {
    var p := m.configDir + "/" + PRIVATE_USER_SUBDIR;
    assert p == m.configDir + ['/'] + PRIVATE_USER_SUBDIR && p[0] == m.configDir[0];
    SplitConcat(m.configDir, PRIVATE_USER_SUBDIR, '/');
    SplitPlain(PRIVATE_USER_SUBDIR, '/');
    var n := |Split(m.configDir, '/')|;
    forall i | 0 <= i < |m.privatePatterns| ensures !MatchesPrivatePattern(m.privatePatterns[i], p) {
      MatchIsSegmentPrefix(m.privatePatterns[i], p);
      assert Split(p, '/')[n] == PRIVATE_USER_SUBDIR;
      assert PatternLeavesUserDirAlone(m.privatePatterns[i], m.configDir);
    }
  }

  /** The event for a vault path's own remote file comes back as that path, unless it is a temporary file or in the user directory. */
  lemma EventRoundTrip(m: PathMapper, p: string)
    requires WellFormed(m) && LeavesUserDirAlone(m) && StripLeadingSlash(p) == p
    ensures InterpretWatchEvent(ToRemote(m, p), Some(m)) == Some(WatchEventAction(p, ToRemote(m, p)))
            <==> !LooksLikeAtomicWriteTmp(p) && !InUserDir(m, p) && p != m.configDir + "/" + PRIVATE_USER_SUBDIR
  {
    TmpLookIsKept(m, p);
    UserDirItselfIsShared(m);
    if IsPrivate(m, p) {
      PrivateImage(m, p);
      if InUserDir(m, p) { UserDirIsNotPrivate(m, p); }
    } else if PrivateRoot(m) + "/" <= p {
      RoundTrip(m, p);
    }
  }

  /** Another client's private file never surfaces here. */
  lemma ForeignEventDropped(m: PathMapper, other: PathMapper, q: string)
    requires WellFormed(m) && WellFormed(other) && m.configDir == other.configDir
    requires m.clientId != other.clientId && '/' !in m.clientId && '/' !in other.clientId
    requires StripLeadingSlash(q) == q && IsPrivate(other, q)
    ensures InterpretWatchEvent(ToRemote(other, q), Some(m)) == None
  {
    var r := ToRemote(other, q);
    PrivateImage(other, q);
    OwnSegments(other, r);
    if PrivateRoot(m) + "/" <= r {
      OwnSegments(m, r);
    }
  }

  /**
   A delivered event names the file the vault path is stored in, except for a leftover: a shared copy
   of a private path, or a non-private path inside this client's subtree.
   */
  lemma DeliveredEventNamesItsFile(m: PathMapper, r: string)
    requires WellFormed(m) && LeavesUserDirAlone(m) && StripLeadingSlash(r) == r
    requires InterpretWatchEvent(r, Some(m)).Some?
    ensures InterpretWatchEvent(r, Some(m)).value == WatchEventAction(ToVault(m, r), r)
    ensures ToRemote(m, ToVault(m, r)) == r <==> (IsPrivate(m, ToVault(m, r)) <==> PrivateRoot(m) + "/" <= r)
  {
    var prefix := PrivateRoot(m) + "/";
    var v := ToVault(m, r);
    if prefix <= r {
      assert v == ConfigDirSlash(m) + r[|prefix|..];
      assert v[0] == m.configDir[0];
      assert Rest(m, v) == r[|prefix|..];
      assert r == prefix + r[|prefix|..];
      assert |v| < |r|;
    } else if IsPrivate(m, v) {
      PrivateImage(m, v);
    }
  }
}
