/**
 What each edit means to the user, said about trees and file contents alone: what a successful edit leaves,
 and exactly when it succeeds. Connected edits, and offline edits once drained, are proved against this.
 */
module EditMeaning {
  import opened Lru
  import opened Text
  import opened ReadCache
  import opened RemoteTree
  import opened QueuedOps
  import opened OfflineEditing
  import opened OfflineEqualsOnline

  /** Encoding loses nothing. */
  ghost predicate TextCodec(env: Env) {
    forall s :: env.decode(env.encode(s)) == s
  }

  ghost predicate HoldsBytes(t: Tree, r: string, bytes: Bytes) {
    r in t && t[r] == File(bytes)
  }

  ghost predicate HoldsText(env: Env, t: Tree, r: string, text: string) {
    r in t && t[r].File? && env.decode(t[r].data) == text
  }

  /** Nothing else changes, missing directories above `r` aside. */
  ghost predicate OnlyAt(before: Tree, after: Tree, r: string) {
    forall k | k != r ::
      if k in before then k in after && after[k] == before[k]
      else k in after ==> k in Ancestors(r) && after[k] == Dir
  }

  ghost predicate Arrives(before: Tree, src: string, dst: string, after: Tree) {
    forall k | k in before && AtOrUnder(k, src) :: dst + k[|src|..] in after && after[dst + k[|src|..]] == before[k]
  }

  ghost predicate ComesFrom(before: Tree, src: string, dst: string, after: Tree) {
    forall k | k in after && AtOrUnder(k, dst) :: src + k[|dst|..] in before
  }

  ghost predicate Gone(src: string, after: Tree) {
    forall k | k in after :: !AtOrUnder(k, src)
  }

  ghost predicate SameElsewhere(before: Tree, src: string, dst: string, after: Tree) {
    forall k | !AtOrUnder(k, src) && !AtOrUnder(k, dst) ::
      if k in before then k in after && after[k] == before[k]
      else k in after ==> k in Ancestors(dst) && after[k] == Dir
  }

  /** What was at or under `src`, and nothing else, is at or under `dst` now, and nothing else changes. */
  ghost predicate MovesTo(before: Tree, src: string, dst: string, after: Tree) {
    && src in before
    && Arrives(before, src, dst, after) && ComesFrom(before, src, dst, after)
    && (src != dst ==> Gone(src, after))
    && SameElsewhere(before, src, dst, after)
  }

  /** What a successful edit leaves. */
  ghost predicate Means(env: Env, before: Tree, e: Edit, after: Tree) {
    match e
    case Write(p, data) =>
      HoldsText(env, after, env.toRemote(p), data) && OnlyAt(before, after, env.toRemote(p))
    case WriteBinary(p, bytes) =>
      HoldsBytes(after, env.toRemote(p), bytes) && OnlyAt(before, after, env.toRemote(p))
    case Append(p, data) =>
      var r := env.toRemote(p);
      && (r in before ==> before[r].File? && HoldsText(env, after, r, env.decode(before[r].data) + data))
      && (r !in before ==> HoldsText(env, after, r, data))
      && OnlyAt(before, after, r)
    case AppendBinary(p, bytes) =>
      var r := env.toRemote(p);
      && (r in before ==> before[r].File? && HoldsBytes(after, r, before[r].data + bytes))
      && (r !in before ==> HoldsBytes(after, r, bytes))
      && OnlyAt(before, after, r)
    case Process(p, fn) =>
      var r := env.toRemote(p);
      && r in before && before[r].File? && HoldsText(env, after, r, fn(env.decode(before[r].data)))
      && OnlyAt(before, after, r)
    case Mkdir(p) =>
      var r := env.toRemote(p);
      && (if IsRoot(r) then r !in after else r in after && after[r] == Dir && (r in before ==> before[r] == Dir))
      && OnlyAt(before, after, r)
    case Remove(p) =>
      var r := env.toRemote(p);
      && r in before && before[r].File? && r !in after
      && OnlyAt(before, after, r)
    case Rmdir(p, recursive) =>
      var r := env.toRemote(p);
      && r in before && before[r].Dir?
      && (!recursive ==> forall k | k in before :: AtOrUnder(k, r) ==> k == r)
      && (forall k :: k in after <==> k in before && !AtOrUnder(k, r))
      && (forall k | k in after :: after[k] == before[k])
    case Rename(p, q) => MovesTo(before, env.toRemote(p), env.toRemote(q), after)
    case TrashLocal(p) => MovesTo(before, env.toRemote(p), env.toRemote(".trash/" + p), after)
    case Copy(p, q) =>
      var src, dst := env.toRemote(p), env.toRemote(q);
      && src in before && before[src].File? && dst in after && after[dst] == before[src]
      && OnlyAt(before, after, dst)
  }

  // ---------------------------------------------------------------- when an edit succeeds

  ghost predicate NoFileAbove(t: Tree, r: string) {
    forall a | a in Ancestors(r) && a in t :: t[a].Dir?
  }

  /** A file can be put there: not the root, no directory, no file above. */
  ghost predicate Writable(t: Tree, r: string) {
    !IsRoot(r) && NoFileAbove(t, r) && (r in t ==> t[r].File?)
  }

  ghost predicate Movable(t: Tree, src: string, dst: string) {
    && src in t && !IsRoot(dst) && NoFileAbove(t, dst)
    && (src == dst
        || (t[src].File? && (dst in t ==> t[dst].File?))
        || (t[src].Dir? && !AtOrUnder(dst, src) && (dst in t ==> t[dst].Dir? && forall k | k in t :: AtOrUnder(k, dst) ==> k == dst)))
  }

  ghost predicate Valid(env: Env, t: Tree, e: Edit) {
    match e
    case Process(p, _) => env.toRemote(p) in t && t[env.toRemote(p)].File?
    case Mkdir(p) => IsRoot(env.toRemote(p)) || (NoFileAbove(t, env.toRemote(p)) && (env.toRemote(p) in t ==> t[env.toRemote(p)].Dir?))
    case Remove(p) => env.toRemote(p) in t && t[env.toRemote(p)].File?
    case Rmdir(p, recursive) =>
      var r := env.toRemote(p);
      r in t && t[r].Dir? && (recursive || forall k | k in t :: AtOrUnder(k, r) ==> k == r)
    case Rename(p, q) => Movable(t, env.toRemote(p), env.toRemote(q))
    case TrashLocal(p) => Movable(t, env.toRemote(p), env.toRemote(".trash/" + p))
    case Copy(p, q) => env.toRemote(p) in t && t[env.toRemote(p)].File? && Writable(t, env.toRemote(q))
    case _ => Writable(t, env.toRemote(e.path))
  }

  /** Making the parents of `p`: exactly its ancestors, unless one of them is a file. */
  lemma ParentsMade(t: Tree, p: string)
    requires WellFormed(t)
    ensures var made := Mkdirp(t, ParentDirRemote(p));
            && (made.ok <==> NoFileAbove(t, p))
            && (made.ok ==> made.tree.Keys == t.Keys + Ancestors(p))
            && (forall k | k in made.tree :: made.tree[k] == if k in t then t[k] else Dir)
  {
    AncestorsOfParent(p);
  }

  lemma AncestorsOfParent(p: string)
    ensures var parent := ParentDirRemote(p);
            Ancestors(p) == if IsRoot(parent) then {} else Ancestors(parent) + {parent}
  {
    var parent := ParentDirRemote(p);
    forall a | a in Ancestors(p) ensures !IsRoot(parent) && a in Ancestors(parent) + {parent} { ParentChain(p, a); }
    if !IsRoot(parent) {
      assert parent in Ancestors(p);
      forall a | a in Ancestors(parent) ensures a in Ancestors(p) { AncestorsTransitive(p, parent, a); AncestorShorter(parent, a); AncestorShorter(p, parent); }
    }
  }

  lemma NotItsOwnAncestor(p: string)
    ensures p !in Ancestors(p)
  {
    if p in Ancestors(p) { AncestorShorter(p, p); }
  }

  lemma Placed(t: Tree, r: string, data: Bytes)
    requires WellFormed(t)
    ensures Place(t, r, data).ok <==> Writable(t, r)
    ensures Place(t, r, data).ok ==> HoldsBytes(Place(t, r, data).tree, r, data) && OnlyAt(t, Place(t, r, data).tree, r)
  {
    ParentsMade(t, r);
    NotItsOwnAncestor(r);
  }

  lemma Copied(t: Tree, src: string, dst: string)
    requires WellFormed(t)
    ensures CopyTree(t, src, dst).ok <==> src in t && t[src].File? && Writable(t, dst)
    ensures CopyTree(t, src, dst).ok ==>
              dst in CopyTree(t, src, dst).tree && CopyTree(t, src, dst).tree[dst] == t[src] && OnlyAt(t, CopyTree(t, src, dst).tree, dst)
  {
    ParentsMade(t, dst);
    NotItsOwnAncestor(dst);
  }

  lemma Made(t: Tree, r: string)
    requires WellFormed(t)
    ensures Mkdirp(t, r).ok <==> IsRoot(r) || (NoFileAbove(t, r) && (r in t ==> t[r].Dir?))
    ensures Mkdirp(t, r).ok ==>
              var after := Mkdirp(t, r).tree;
              (if IsRoot(r) then r !in after else r in after && after[r] == Dir && (r in t ==> t[r] == Dir)) && OnlyAt(t, after, r)
  {
  }

  // ---------------------------------------------------------------- renames

  lemma RenameSucceeds(t: Tree, src: string, dst: string)
    requires WellFormed(t)
    ensures RenameTree(t, src, dst).ok <==> Movable(t, src, dst)
  {
    ParentsMade(t, dst);
    NotItsOwnAncestor(dst);
    if src in Ancestors(dst) { AncestorShorter(dst, src); }
    var made := Mkdirp(t, ParentDirRemote(dst)).tree;
    forall k | k in made && AtOrUnder(k, dst) ensures k in t { NotAboveItself(dst, k); }
    if RenameTree(t, src, dst).ok && src in t && t[src].Dir? && dst in t {
      assert forall k | k in t && AtOrUnder(k, dst) :: k in Subtree(made, dst);
    }
  }

  lemma NotAboveItself(p: string, k: string)
    requires AtOrUnder(k, p)
    ensures k !in Ancestors(p)
  {
    if k in Ancestors(p) { AncestorShorter(p, k); }
  }

  /** A rename moves everything it should and nothing else. */
  lemma RenameMoves(t: Tree, src: string, dst: string)
    requires WellFormed(t) && RenameTree(t, src, dst).ok
    ensures MovesTo(t, src, dst, RenameTree(t, src, dst).tree)
  {
    RenameSucceeds(t, src, dst);
    ParentsMade(t, dst);
    var made := Mkdirp(t, ParentDirRemote(dst)).tree;
    if src == dst {
      assert made == t;
      Stays(t, src);
    } else {
      MkdirpProperties(t, ParentDirRemote(dst));
      assert forall a | a in Ancestors(dst) :: a in made && made[a].Dir?;
      NodeMoves(made, src, dst);
      if AtOrUnder(dst, src) { UnderIsAncestor(dst, src); }
      ParentsAside(t, made, src, dst, RenameTree(t, src, dst).tree);
    }
  }

  lemma Stays(t: Tree, src: string)
    requires src in t
    ensures MovesTo(t, src, src, t)
  {
    forall k | AtOrUnder(k, src) ensures src + k[|src|..] == k { }
  }

  /** The parents that were made for `dst` are no part of what moved. */
  lemma ParentsAside(t: Tree, made: Tree, src: string, dst: string, after: Tree)
    requires made.Keys == t.Keys + Ancestors(dst) && forall k | k in made :: made[k] == if k in t then t[k] else Dir
    requires src in t && !AtOrUnder(dst, src) && MovesTo(made, src, dst, after)
    ensures MovesTo(t, src, dst, after)
  {
    forall k | k in made && AtOrUnder(k, src) ensures k in t {
      if k in Ancestors(dst) {
        AncestorShorter(dst, k);
        AtOrUnderChain(dst, k, src);
      }
    }
    assert Arrives(t, src, dst, after);
    forall k | k in after && AtOrUnder(k, dst) ensures src + k[|dst|..] in t {
      MovedBack(k, dst, src);
      assert Moved(k, dst, src) in made;
    }
  }

  lemma AtOrUnderChain(a: string, b: string, c: string)
    requires AtOrUnder(a, b) && AtOrUnder(b, c)
    ensures AtOrUnder(a, c)
  {
  }

  lemma NodeMoves(t: Tree, src: string, dst: string)
    requires WellFormed(t) && RenameNode(t, src, dst).ok && src != dst
    requires forall a | a in Ancestors(dst) :: a in t && t[a].Dir?
    ensures MovesTo(t, src, dst, RenameNode(t, src, dst).tree)
  {
    if t[src].File? {
      FileMoves(t, src, dst);
    } else {
      var after := MoveSubtree(t, src, dst);
      TargetsAreFree(t, src, dst);
      SubtreeArrives(t, src, dst);
      forall k | k in after ensures !AtOrUnder(k, src) && (AtOrUnder(k, dst) ==> src + k[|dst|..] in t) {
        Landed(t, src, dst, k);
      }
      DirElsewhere(t, src, dst);
    }
  }

  lemma NothingBelowFile(t: Tree, f: string, k: string)
    requires WellFormed(t) && k in t && AtOrUnder(k, f) && !IsRoot(f) && (f !in t || t[f].File?)
    ensures k == f
  {
    if k != f { UnderIsAncestor(k, f); }
  }

  lemma FileMoves(t: Tree, src: string, dst: string)
    requires WellFormed(t) && RenameNode(t, src, dst).ok && src != dst && t[src].File?
    requires forall a | a in Ancestors(dst) :: a in t && t[a].Dir?
    ensures MovesTo(t, src, dst, RenameNode(t, src, dst).tree)
  {
    var after := (t - {src})[dst := t[src]];
    forall k | k in t && AtOrUnder(k, src) ensures k == src { NothingBelowFile(t, src, k); }
    forall k | k in t && AtOrUnder(k, dst) ensures k == dst { NothingBelowFile(t, dst, k); }
    assert src[|src|..] == "" && dst[|dst|..] == "" && dst + "" == dst && src + "" == src;
    assert AtOrUnder(src, src) && AtOrUnder(dst, dst);
    assert Arrives(t, src, dst, after) && ComesFrom(t, src, dst, after);
    assert SameElsewhere(t, src, dst, after);
    FileGone(t, src, dst);
  }

  lemma FileGone(t: Tree, src: string, dst: string)
    requires WellFormed(t) && RenameNode(t, src, dst).ok && src != dst && t[src].File?
    requires forall a | a in Ancestors(dst) :: a in t && t[a].Dir?
    ensures Gone(src, RenameNode(t, src, dst).tree)
  {
    if AtOrUnder(dst, src) { UnderIsAncestor(dst, src); }
    forall k | k in t && AtOrUnder(k, src) ensures k == src { NothingBelowFile(t, src, k); }
  }

  lemma SubtreeArrives(t: Tree, src: string, dst: string)
    requires WellFormed(t) && src in t
    ensures Arrives(t, src, dst, MoveSubtree(t, src, dst))
  {
    forall k | k in t && AtOrUnder(k, src)
      ensures var k' := dst + k[|src|..]; k' in MoveSubtree(t, src, dst) && MoveSubtree(t, src, dst)[k'] == t[k]
    {
      MovedBack(k, src, dst);
      assert k in Subtree(t, src) && Moved(k, src, dst) in Targets(t, src, dst);
    }
  }

  lemma DirElsewhere(t: Tree, src: string, dst: string)
    ensures SameElsewhere(t, src, dst, MoveSubtree(t, src, dst))
  {
    forall k | k in Targets(t, src, dst) ensures AtOrUnder(k, dst) { assert BackIn(k, src, dst, Subtree(t, src)); }
  }

  lemma Landed(t: Tree, src: string, dst: string, k: string)
    requires WellFormed(t) && RenameNode(t, src, dst).ok && src != dst && t[src].Dir? && k in MoveSubtree(t, src, dst)
    ensures !AtOrUnder(k, src) && (AtOrUnder(k, dst) ==> src + k[|dst|..] in t)
  {
    if k in Targets(t, src, dst) {
      assert BackIn(k, src, dst, Subtree(t, src));
      if AtOrUnder(k, src) { NotBothAbove(t, src, dst, k); }
    } else {
      assert k in t && k !in Subtree(t, src);
      if AtOrUnder(k, dst) {
        OnlyItself(t, dst, k);
        assert src + k[|dst|..] == src;
      }
    }
  }

  lemma OnlyItself(t: Tree, dst: string, k: string)
    requires WellFormed(t) && !IsRoot(dst) && k in t && AtOrUnder(k, dst)
    requires dst in t ==> t[dst].Dir? && Subtree(t, dst) == {dst}
    ensures k == dst
  {
    assert k in Subtree(t, dst);
    if k != dst { UnderIsAncestor(k, dst); }
  }

  lemma NotBothAbove(t: Tree, src: string, dst: string, k: string)
    requires WellFormed(t) && RenameNode(t, src, dst).ok && src != dst && t[src].Dir? && AtOrUnder(k, src)
    ensures !AtOrUnder(k, dst)
  {
    if AtOrUnder(src, dst) { OnlyItself(t, dst, src); }
    if AtOrUnder(k, dst) { TwoAbove(k, src, dst); }
  }

  /** Of two places above one path, one is above the other. */
  lemma TwoAbove(k: string, p: string, q: string)
    requires AtOrUnder(k, p) && AtOrUnder(k, q)
    ensures AtOrUnder(p, q) || AtOrUnder(q, p)
  {
    assert k[..|p|] == p && k[..|q|] == q;
    if |p| < |q| {
      assert q[..|p|] == p && q[|p|] == k[|p|] == '/';
      assert q[..|p| + 1] == p + "/";
    } else if |q| < |p| {
      assert p[..|q|] == q && p[|q|] == k[|q|] == '/';
      assert p[..|q| + 1] == q + "/";
    }
  }

  // ---------------------------------------------------------------- one edit

  ghost predicate NeedsCodec(e: Edit) {
    e.Write? || e.Append? || e.Process?
  }

  /** Nothing that was there is lost, and what is new is a directory. */
  ghost predicate OnlyDirsAdded(before: Tree, after: Tree) {
    && (forall k | k in before :: k in after && after[k] == before[k])
    && (forall k | k in after && k !in before :: after[k] == Dir)
  }

  /** An edit made on the tree succeeds exactly when it is valid, and then does what it means; a failed one leaves directories at most. */
  lemma EditMeans(env: Env, t: Tree, e: Edit)
    requires WellFormed(t) && (NeedsCodec(e) ==> TextCodec(env))
    ensures OnlineTree(env, t, e).ok <==> Valid(env, t, e)
    ensures OnlineTree(env, t, e).ok ==> Means(env, t, e, OnlineTree(env, t, e).tree)
    ensures !OnlineTree(env, t, e).ok ==> OnlyDirsAdded(t, OnlineTree(env, t, e).tree)
  {
    match e
    case Mkdir(p) => Made(t, env.toRemote(p));
    case Remove(p) => Removed(t, env.toRemote(p));
    case Rmdir(p, recursive) => RemovedDir(t, env.toRemote(p), recursive);
    case Rename(p, q) => RenameMeans(t, env.toRemote(p), env.toRemote(q));
    case TrashLocal(p) => RenameMeans(t, env.toRemote(p), env.toRemote(".trash/" + p));
    case Copy(p, q) =>
      Copied(t, env.toRemote(p), env.toRemote(q));
      ParentsMade(t, env.toRemote(q));
    case _ => WriteMeans(env, t, e);
  }

  lemma Removed(t: Tree, r: string)
    ensures RemoveFile(t, r).ok <==> r in t && t[r].File?
    ensures RemoveFile(t, r).ok ==> r !in RemoveFile(t, r).tree && OnlyAt(t, RemoveFile(t, r).tree, r)
    ensures !RemoveFile(t, r).ok ==> RemoveFile(t, r).tree == t
  {
  }

  lemma RemovedDir(t: Tree, r: string, recursive: bool)
    ensures var after := RemoveDir(t, r, recursive);
            && (after.ok <==> r in t && t[r].Dir? && (recursive || forall k | k in t :: AtOrUnder(k, r) ==> k == r))
            && (after.ok ==> forall k :: k in after.tree <==> k in t && !AtOrUnder(k, r))
            && (after.ok ==> forall k | k in after.tree :: after.tree[k] == t[k])
            && (!after.ok ==> after.tree == t)
  {
    if r in t {
      assert r in Subtree(t, r);
      if Subtree(t, r) == {r} {
        forall k | k in t && AtOrUnder(k, r) ensures k == r { assert k in Subtree(t, r); }
      }
    }
  }

  lemma RenameMeans(t: Tree, src: string, dst: string)
    requires WellFormed(t)
    ensures var after := RenameTree(t, src, dst);
            && (after.ok <==> Movable(t, src, dst))
            && (after.ok ==> MovesTo(t, src, dst, after.tree))
            && (!after.ok ==> OnlyDirsAdded(t, after.tree))
  {
    RenameSucceeds(t, src, dst);
    ParentsMade(t, dst);
    if RenameTree(t, src, dst).ok { RenameMoves(t, src, dst); }
  }

  lemma WriteMeans(env: Env, t: Tree, e: Edit)
    requires WellFormed(t) && Writes(e) && (NeedsCodec(e) ==> TextCodec(env))
    ensures OnlineTree(env, t, e).ok <==> Valid(env, t, e)
    ensures OnlineTree(env, t, e).ok ==> Means(env, t, e, OnlineTree(env, t, e).tree)
    ensures !OnlineTree(env, t, e).ok ==> OnlyDirsAdded(t, OnlineTree(env, t, e).tree)
  {
    var r := env.toRemote(e.path);
    var content := NewContent(env, ReadTree(t, r), e);
    ParentsMade(t, r);
    if r in t { assert forall a | a in Ancestors(r) :: a in t && t[a].Dir?; }
    if content.Some? {
      Placed(t, r, content.value);
      if Place(t, r, content.value).ok { ContentMeans(env, t, e, Place(t, r, content.value).tree); }
    }
  }

  lemma ContentMeans(env: Env, t: Tree, e: Edit, after: Tree)
    requires Writes(e) && (NeedsCodec(e) ==> TextCodec(env))
    requires var content := NewContent(env, ReadTree(t, env.toRemote(e.path)), e);
             content.Some? && HoldsBytes(after, env.toRemote(e.path), content.value)
    requires OnlyAt(t, after, env.toRemote(e.path))
    ensures Means(env, t, e, after)
  {
    assert forall s: string :: "" + s == s;
    assert forall b: Bytes :: [] + b == b;
  }

  // ---------------------------------------------------------------- while connected

  /** Through the cache, the same: the cache changes neither whether an edit succeeds nor what it leaves. */
  lemma ConnectedEditMeans(env: Env, cache: Cache, t: Tree, e: Edit, h: Host)
    requires WellFormed(t) && Agrees(cache, t) && (NeedsCodec(e) ==> TextCodec(env))
    ensures var l := OnlineEdit(env, cache, t, e, h);
            (l.ok <==> Valid(env, t, e)) && (if l.ok then Means(env, t, e, l.tree) else OnlyDirsAdded(t, l.tree))
  {
    EditMeans(env, t, e);
    if Reads(e) { OnlineReadTrue(env, cache, t, env.toRemote(e.path), h); }
  }

  /** A successful write leaves its content in the cache under the mtime the remote reported, if the cache can hold it. */
  lemma WriteIsCached(env: Env, cache: Cache, t: Tree, e: Edit, h: Host)
    requires WellFormed(t) && Agrees(cache, t) && Writes(e) && OnlineEdit(env, cache, t, e, h).ok
    ensures var r, l := env.toRemote(e.path), OnlineEdit(env, cache, t, e, h);
            && r in l.tree && l.tree[r].File?
            && (|l.tree[r].data| <= env.cap ==> Peek(l.cache, r) == Some(Cached(l.tree[r].data, h.mtime)))
  {
    var r := env.toRemote(e.path);
    if Reads(e) { OnlineReadTrue(env, cache, t, r, h); }
    var (cache1, existing) := if Reads(e) then OnlineRead(env, cache, t, r, h) else (cache, NotFound);
    var data := NewContent(env, existing, e).value;
    Placed(t, r, data);
    if |data| <= env.cap { PutKeepsNewest(cache1, Entry(r, Cached(data, h.mtime), |data|), env.cap, env.cap); }
  }

  // ---------------------------------------------------------------- while reconnecting

  /** Exactly which edits are taken while reconnecting: those that need no read, or whose file is in the cache. */
  lemma OfflineEditTaken(env: Env, s: Session, e: Edit, h: Host)
    ensures OfflineEdit(env, s, e, h).1 <==> h.room && (Reads(e) ==> Lookup(s.cache, env.toRemote(e.path)).Some?)
    ensures OfflineEdit(env, s, e, h).1 ==> |OfflineEdit(env, s, e, h).0.queue| == |s.queue| + 1
    ensures !OfflineEdit(env, s, e, h).1 ==> OfflineEdit(env, s, e, h).0.queue == s.queue
  {
  }

  /** An edit taken while reconnecting means, once the queue is drained, what it would have meant online. */
  lemma {:induction false} OfflineEditMeans(env: Env, remote: Tree, s: Session, v: Tree, e: Edit, h: Host, hosts: nat -> Host)
    requires Simulates(env, remote, s, v) && WellFormed(remote) && (NeedsCodec(e) ==> TextCodec(env))
    requires OfflineEdit(env, s, e, h).1 && Valid(env, v, e)
    ensures var drained := Drain(env, [], remote, OfflineEdit(env, s, e, h).0.queue, hosts);
            drained.ok && Means(env, v, e, drained.tree)
  {
    EditMeans(env, v, e);
    OfflineEditSimulates(env, remote, s, v, e, h);
    DrainReachesVirtual(env, [], remote, OfflineEdit(env, s, e, h).0.queue, OnlineTree(env, v, e).tree, hosts);
  }

  /** The editor sees its own writes: what an offline edit wrote is what the next offline read serves, if the cache can hold it. */
  lemma OfflineWriteIsSeen(env: Env, remote: Tree, s: Session, v: Tree, e: Edit, h: Host)
    requires Simulates(env, remote, s, v) && Writes(e) && OfflineEdit(env, s, e, h).1 && OnlineTree(env, v, e).ok
    ensures var r, after := env.toRemote(e.path), OnlineTree(env, v, e).tree;
            && r in after && after[r].File?
            && (|after[r].data| <= env.cap ==>
                  && OfflineRead(env, OfflineEdit(env, s, e, h).0, e.path).1 == Some(after[r].data)
                  && Peek(OfflineEdit(env, s, e, h).0.cache, r) == Some(Cached(after[r].data, h.now)))
  {
    var r, q := env.toRemote(e.path), Queued(env, s.cache, e).value;
    QueuedIsOnline(env, s.cache, v, e);
    PlaceProperties(v, r, q.content);
    var read := if Reads(e) then Touch(s.cache, r) else s.cache;
    TouchProperties(s.cache, r);
    if |q.content| <= env.cap { PutKeepsNewest(read, Entry(r, Cached(q.content, h.now), |q.content|), env.cap, env.cap); }
  }

  /** A file in the cache is served while reconnecting, and nothing else is. */
  lemma OfflineReadServes(env: Env, s: Session, v: Tree, path: string)
    requires Agrees(s.cache, v)
    ensures OfflineRead(env, s, path).1.Some? <==> Lookup(s.cache, env.toRemote(path)).Some?
    ensures OfflineRead(env, s, path).1.Some? ==> HoldsBytes(v, env.toRemote(path), OfflineRead(env, s, path).1.value)
  {
    assert AgreesAt(s.cache, v, env.toRemote(path));
  }

  /** A queued write records the mtime of the copy the edit was made on, or none. */
  lemma {:induction false} QueuedExpects(env: Env, cache: Cache, e: Edit)
    requires Writes(e) && Queued(env, cache, e).Some?
    ensures var q, cached := Queued(env, cache, e).value, Lookup(cache, env.toRemote(e.path));
            && (q.Write? || q.WriteBinary?) && q.path == e.path
            && (q.WriteBinary? <==> e.WriteBinary? || e.AppendBinary?)
            && (q.expectedMtime.Some? <==> cached.Some?)
            && (cached.Some? ==> q.expectedMtime == Some(cached.value.value.mtime))
  {
  }

  // ---------------------------------------------------------------- reading over the wire

  /**
   However stale the cache is: if a confirmed copy is the file's content, the read tells the truth, and
   leaves a true copy behind. Unconfirmed copies are never served.
   */
  lemma RevalidatedReadTrue(env: Env, cache: Cache, t: Tree, r: string, h: Host)
    requires Distinct(cache) && (h.confirmed ==> r !in t || AgreesAt(cache, t, r))
    ensures OnlineRead(env, cache, t, r, h).1 == ReadTree(t, r)
    ensures r in t && t[r].File? ==> AgreesAt(OnlineRead(env, cache, t, r, h).0, t, r)
  {
    TouchProperties(cache, r);
    if r in t && t[r].File? {
      PutProperties(cache, Entry(r, Cached(t[r].data, h.mtime), |t[r].data|), env.cap, env.cap);
    }
  }

  /** An edit forgets only what it touches, and what has a trailing slash in its name aside, exactly that. */
  lemma {:induction false} ForgetsOnlyTouched(env: Env, cache: Cache, e: Edit, k: string)
    requires Distinct(cache) && !Writes(e)
    requires e.Rmdir? ==> !EndsInSlash(env.toRemote(e.path))
    requires e.Rename? ==> !EndsInSlash(env.toRemote(e.oldPath))
    requires e.TrashLocal? ==> !EndsInSlash(env.toRemote(e.path))
    ensures Lookup(Forget(env, cache, e), k) == if Touches(env, e, k) then None else Lookup(cache, k)
  {
    match e
    case Mkdir(_) =>
    case Remove(p) => ForgetOne(cache, Only(env.toRemote(p)), k);
    case Rmdir(p, _) => ForgetOne(cache, AtPrefix(env.toRemote(p)), k);
    case Rename(p, q) => ForgetTwo(cache, env.toRemote(p), env.toRemote(q), k);
    case TrashLocal(p) => ForgetTwo(cache, env.toRemote(p), env.toRemote(TrashPath(p)), k);
    case Copy(p, q) => ForgetOne(cache, Only(env.toRemote(q)), k);
  }

  predicate EndsInSlash(p: string) {
    p != "" && p[|p| - 1] == '/'
  }
}
