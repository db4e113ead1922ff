/**
 Which paths a walk of the remote must leave alone while operations are queued, and why that is
 enough: wherever the virtual remote differs from the remote, the filter says so.
 */
module OfflineFilter {
  import opened Lru
  import opened ReadCache
  import opened RemoteTree
  import opened QueuedOps
  import opened OfflineEditing
  import opened Text
  import Paths = PathMapper
  import Meaning = EditMeaning

  /** What the queue adds, what it removes, and the folders above what it adds. */
  datatype PendingFilter = PendingFilter(added: set<string>, removed: set<string>, above: set<string>)

  function Adds(op: QueuedOp): set<string> {
    match op
    case Rename(_, newPath) => {newPath}
    case Copy(_, dstPath) => {dstPath}
    case Remove(_) => {}
    case Rmdir(_, _) => {}
    case TrashLocal(_) => {}
    case _ => {op.path}
  }

  function Removes(op: QueuedOp): set<string> {
    match op
    case Rename(oldPath, _) => {oldPath}
    case Remove(path) => {path}
    case Rmdir(path, _) => {path}
    case TrashLocal(path) => {path}
    case _ => {}
  }

  predicate InOrUnder(path: string, these: set<string>) {
    path in these || exists a | a in Ancestors(path) :: a in these
  }

  predicate Skip(f: PendingFilter, path: string) {
    InOrUnder(path, f.removed)
  }

  predicate Keep(f: PendingFilter, path: string) {
    path in f.above || InOrUnder(path, f.added)
  }

  function Added(queue: seq<QueuedOp>): set<string> {
    set i, p | 0 <= i < |queue| && p in Adds(queue[i]) :: p
  }

  function Removed(queue: seq<QueuedOp>): set<string> {
    set i, p | 0 <= i < |queue| && p in Removes(queue[i]) :: p
  }

  function Above(added: set<string>): set<string> {
    set q, a | q in added && a in Ancestors(q) :: a
  }

  function FilterOf(queue: seq<QueuedOp>): PendingFilter {
    PendingFilter(Added(queue), Removed(queue), Above(Added(queue)))
  }

  lemma OneMore(queue: seq<QueuedOp>, i: nat)
    requires i < |queue|
    ensures Added(queue[..i + 1]) == Added(queue[..i]) + Adds(queue[i])
    ensures Removed(queue[..i + 1]) == Removed(queue[..i]) + Removes(queue[i])
  {
    assert queue[..i + 1] == queue[..i] + [queue[i]];
  }

  lemma EveryOpHasAnEffect(op: QueuedOp)
    ensures Adds(op) + Removes(op) != {}
  {
    match op
    case Remove(p) => assert p in Removes(op);
    case Rmdir(p, _) => assert p in Removes(op);
    case TrashLocal(p) => assert p in Removes(op);
    case Rename(_, p) => assert p in Adds(op);
    case Copy(_, p) => assert p in Adds(op);
    case _ => assert op.path in Adds(op);
  }

  method PendingOfflineFilter(queue: seq<QueuedOp>) returns (filter: Option<PendingFilter>)
    ensures filter == if queue == [] then None else Some(FilterOf(queue))
  {
    var added, removed: set<string> := {}, {};
    for i := 0 to |queue|
      invariant added == Added(queue[..i]) && removed == Removed(queue[..i])
      invariant i > 0 ==> added + removed != {}
    {
      OneMore(queue, i);
      EveryOpHasAnEffect(queue[i]);
      added := added + Adds(queue[i]);
      removed := removed + Removes(queue[i]);
    }
    assert queue[..|queue|] == queue;
    if added + removed == {} { return None; }
    var above: set<string> := {};
    var left := added;
    while left != {}
      invariant left <= added && above == Above(added - left)
      decreases left
    {
      var q :| q in left;
      assert added - (left - {q}) == (added - left) + {q};
      left := left - {q};
      above := above + Ancestors(q);
    }
    assert added - {} == added;
    filter := Some(PendingFilter(added, removed, above));
  }

  /** What the filter says about a path, in terms of the queue: kept if near something added, skipped if within something removed. */
  lemma FilterExactly(queue: seq<QueuedOp>, k: string)
    ensures Keep(FilterOf(queue), k) <==> exists i :: 0 <= i < |queue| && KeptFor(queue[i], k)
    ensures Skip(FilterOf(queue), k) <==> exists i :: 0 <= i < |queue| && SkippedFor(queue[i], k)
  {
    if Keep(FilterOf(queue), k) {
      var p :| p in Added(queue) && (k == p || p in Ancestors(k) || k in Ancestors(p));
      var i :| 0 <= i < |queue| && p in Adds(queue[i]);
      assert KeptFor(queue[i], k);
    }
    if Skip(FilterOf(queue), k) {
      var p :| p in Removed(queue) && (k == p || p in Ancestors(k));
      var i :| 0 <= i < |queue| && p in Removes(queue[i]);
      assert SkippedFor(queue[i], k);
    }
    if i :| 0 <= i < |queue| && KeptFor(queue[i], k) {
      var p :| p in Adds(queue[i]) && (k == p || p in Ancestors(k) || k in Ancestors(p));
      assert p in Added(queue);
    }
    if i :| 0 <= i < |queue| && SkippedFor(queue[i], k) {
      var p :| p in Removes(queue[i]) && (k == p || p in Ancestors(k));
      assert p in Removed(queue);
    }
  }

  ghost predicate KeptFor(op: QueuedOp, k: string) {
    exists p | p in Adds(op) :: k == p || p in Ancestors(k) || k in Ancestors(p)
  }

  ghost predicate SkippedFor(op: QueuedOp, k: string) {
    exists p | p in Removes(op) :: k == p || p in Ancestors(k)
  }

  // ---------------------------------------------------------------- one operation

  /** At or under a place, or one of the folders above it. */
  ghost predicate Near(r: string, place: string) {
    !IsRoot(place) && (AtOrUnder(r, place) || r in Ancestors(place))
  }

  ghost predicate Within(r: string, place: string) {
    !IsRoot(place) && AtOrUnder(r, place)
  }

  /** Some path the operation adds lies there; trashing adds a path it is not filed under. */
  ghost predicate AddsNear(env: Env, op: QueuedOp, r: string) {
    || (exists p | p in Adds(op) :: Near(r, env.toRemote(p)))
    || (op.TrashLocal? && Near(r, env.toRemote(TrashPath(op.path))))
  }

  ghost predicate RemovesThere(env: Env, op: QueuedOp, r: string) {
    exists p | p in Removes(op) :: Within(r, env.toRemote(p))
  }

  ghost predicate Changed(t: Tree, after: Tree, k: string) {
    k in after && (k !in t || after[k] != t[k])
  }

  lemma ParentIsAncestor(p: string)
    requires !IsRoot(ParentDirRemote(p)) && !IsRoot(p)
    ensures ParentDirRemote(p) in Ancestors(p)
  {
  }

  lemma MkdirpChanges(t: Tree, p: string, k: string)
    requires Changed(t, Mkdirp(t, p).tree, k)
    ensures !IsRoot(k) && (k == p || k in Ancestors(p))
  {
  }

  lemma ParentsOnly(t: Tree, p: string, k: string)
    requires Changed(t, Mkdirp(t, ParentDirRemote(p)).tree, k)
    ensures k in Ancestors(p)
  {
    MkdirpChanges(t, ParentDirRemote(p), k);
    ParentIsAncestor(p);
    if k != ParentDirRemote(p) { AncestorsTransitive(p, ParentDirRemote(p), k); }
  }

  lemma PlaceChanges(t: Tree, p: string, data: Bytes, k: string)
    requires NoRootEntry(t)
    ensures NoRootEntry(Place(t, p, data).tree)
    ensures k in t ==> k in Place(t, p, data).tree
    ensures Changed(t, Place(t, p, data).tree, k) ==> !IsRoot(p) && (k == p || k in Ancestors(p))
  {
    var made := Mkdirp(t, ParentDirRemote(p)).tree;
    MkdirpNoRoot(t, ParentDirRemote(p));
    if Changed(t, made, k) { ParentsOnly(t, p, k); }
  }

  lemma MkdirpNoRoot(t: Tree, p: string)
    requires NoRootEntry(t)
    ensures NoRootEntry(Mkdirp(t, p).tree)
  {
    forall k | k in Mkdirp(t, p).tree ensures !IsRoot(k) {
      if k !in t { MkdirpChanges(t, p, k); }
    }
  }

  lemma RenameChanges(t: Tree, src: string, dst: string, k: string)
    requires NoRootEntry(t)
    ensures var after := RenameTree(t, src, dst).tree;
            && (Changed(t, after, k) ==> !IsRoot(dst) && (AtOrUnder(k, dst) || k in Ancestors(dst)))
            && (k in t && k !in after ==> AtOrUnder(k, src) && !IsRoot(src))
  {
    var made := Mkdirp(t, ParentDirRemote(dst)).tree;
    MkdirpNoRoot(t, ParentDirRemote(dst));
    if Changed(t, made, k) { ParentsOnly(t, dst, k); }
    assert k in Targets(made, src, dst) ==> BackIn(k, src, dst, Subtree(made, src));
  }

  lemma RenameNoRoot(t: Tree, src: string, dst: string)
    requires NoRootEntry(t)
    ensures NoRootEntry(RenameTree(t, src, dst).tree)
  {
    forall k | k in RenameTree(t, src, dst).tree ensures !IsRoot(k) {
      RenameChanges(t, src, dst, k);
      if k !in t && k in Ancestors(dst) { AncestorNotRoot(dst, k); }
    }
  }

  lemma AncestorNotRoot(p: string, a: string)
    requires a in Ancestors(p)
    ensures !IsRoot(a)
  {
  }

  lemma CopyChanges(t: Tree, src: string, dst: string, k: string)
    requires NoRootEntry(t)
    ensures NoRootEntry(CopyTree(t, src, dst).tree)
    ensures k in t ==> k in CopyTree(t, src, dst).tree
    ensures Changed(t, CopyTree(t, src, dst).tree, k) ==> !IsRoot(dst) && (k == dst || k in Ancestors(dst))
  {
    var made := Mkdirp(t, ParentDirRemote(dst)).tree;
    MkdirpNoRoot(t, ParentDirRemote(dst));
    if Changed(t, made, k) { ParentsOnly(t, dst, k); }
  }

  /** Everything the operation changes at `r` is filed under what it adds or removes, the trash aside. */
  ghost predicate Covered(env: Env, t: Tree, after: Tree, op: QueuedOp, r: string) {
    && NoRootEntry(after)
    && (Changed(t, after, r) ==> AddsNear(env, op, r))
    && (r in t && r !in after ==> RemovesThere(env, op, r))
  }

  /** Replaying one operation, whether or not it succeeds, changes only what it is filed under. */
  lemma OpChanges(env: Env, t: Tree, op: QueuedOp, r: string)
    requires NoRootEntry(t)
    ensures Covered(env, t, ReplayTree(env, t, op).tree, op, r)
  {
    match op
    case Mkdir(p) => MkdirCovered(env, t, op, r);
    case Remove(p) => assert p in Removes(op);
    case Rmdir(p, _) => assert p in Removes(op);
    case Rename(p, q) => RenameCovered(env, t, op, r);
    case TrashLocal(p) => TrashCovered(env, t, op, r);
    case Copy(p, q) => CopyCovered(env, t, op, r);
    case _ => WriteCovered(env, t, op, r);
  }

  lemma MkdirCovered(env: Env, t: Tree, op: QueuedOp, r: string)
    requires NoRootEntry(t) && op.Mkdir?
    ensures Covered(env, t, ReplayTree(env, t, op).tree, op, r)
  {
    var made := env.toRemote(op.path);
    assert op.path in Adds(op);
    MkdirpNoRoot(t, made);
    if Changed(t, Mkdirp(t, made).tree, r) { MkdirpChanges(t, made, r); }
  }

  lemma RenameCovered(env: Env, t: Tree, op: QueuedOp, r: string)
    requires NoRootEntry(t) && op.Rename?
    ensures Covered(env, t, ReplayTree(env, t, op).tree, op, r)
  {
    assert op.oldPath in Removes(op) && op.newPath in Adds(op);
    RenameChanges(t, env.toRemote(op.oldPath), env.toRemote(op.newPath), r);
    RenameNoRoot(t, env.toRemote(op.oldPath), env.toRemote(op.newPath));
  }

  lemma TrashCovered(env: Env, t: Tree, op: QueuedOp, r: string)
    requires NoRootEntry(t) && op.TrashLocal?
    ensures Covered(env, t, ReplayTree(env, t, op).tree, op, r)
  {
    var dst := env.toRemote(TrashPath(op.path));
    assert op.path in Removes(op);
    RenameChanges(t, env.toRemote(op.path), dst, r);
    RenameNoRoot(t, env.toRemote(op.path), dst);
  }

  lemma CopyCovered(env: Env, t: Tree, op: QueuedOp, r: string)
    requires NoRootEntry(t) && op.Copy?
    ensures Covered(env, t, ReplayTree(env, t, op).tree, op, r)
  {
    assert op.dstPath in Adds(op);
    CopyChanges(t, env.toRemote(op.srcPath), env.toRemote(op.dstPath), r);
  }

  lemma WriteCovered(env: Env, t: Tree, op: QueuedOp, r: string)
    requires NoRootEntry(t) && (op.Write? || op.WriteBinary? || op.Append? || op.AppendBinary?)
    ensures Covered(env, t, ReplayTree(env, t, op).tree, op, r)
  {
    var place := env.toRemote(op.path);
    assert op.path in Adds(op);
    WriteIsPlace(env, t, op);
    var after := ReplayTree(env, t, op).tree;
    if after != t {
      var data :| after == Place(t, place, data).tree;
      PlaceChanges(t, place, data, r);
    }
  }

  // ---------------------------------------------------------------- operations on the root of the vault

  ghost predicate StrictlyUnder(r: string, place: string) {
    place + "/" <= r
  }

  /** The vault root lies at the base, everything else the operation names below it. */
  ghost predicate PlacedBelow(env: Env, base: string, op: QueuedOp) {
    && (forall p | p in Adds(op) + Removes(op) :: PlacedAt(env, base, p))
    && (op.TrashLocal? ==> PlacedAt(env, base, TrashPath(op.path)))
  }

  ghost predicate PlacedAt(env: Env, base: string, p: string) {
    if IsRoot(p) then env.toRemote(p) == base else IsRoot(base) || StrictlyUnder(env.toRemote(p), base)
  }

  /** The same as `AddsNear` and `RemovesThere`, the vault root not counting. */
  ghost predicate ProperlyAddsNear(env: Env, op: QueuedOp, r: string) {
    || (exists p | p in Adds(op) :: !IsRoot(p) && Near(r, env.toRemote(p)))
    || (op.TrashLocal? && Near(r, env.toRemote(TrashPath(op.path))))
  }

  ghost predicate ProperlyRemoves(env: Env, op: QueuedOp, r: string) {
    exists p | p in Removes(op) :: !IsRoot(p) && Within(r, env.toRemote(p))
  }

  /** A recursive removal of the vault root, the one such operation that reaches below it. */
  predicate EmptiesVault(op: QueuedOp, base: string) {
    op.Rmdir? && op.recursive && IsRoot(op.path) && !IsRoot(base)
  }

  lemma BelowIsLonger(r: string, base: string)
    requires StrictlyUnder(r, base)
    ensures r != base && AtOrUnder(r, base) && r !in Ancestors(base)
    ensures !IsRoot(base) ==> base in Ancestors(r)
  {
    if r in Ancestors(base) { AncestorShorter(base, r); }
    if !IsRoot(base) { UnderIsAncestor(r, base); }
  }

  /** A rename between the root and a place below it, or of the root onto itself, makes parents at most. */
  lemma RenameWithRoot(t: Tree, base: string, src: string, dst: string)
    requires RemoteTree.WellFormed(t) && !IsRoot(base) && (src == base || dst == base)
    requires src == base || StrictlyUnder(src, base)
    requires dst == base || StrictlyUnder(dst, base)
    ensures RenameTree(t, src, dst).tree == Mkdirp(t, ParentDirRemote(dst)).tree
  {
    var made := Mkdirp(t, ParentDirRemote(dst)).tree;
    MkdirpProperties(t, ParentDirRemote(dst));
    if src != dst && Mkdirp(t, ParentDirRemote(dst)).ok {
      if src == base {
        BelowIsLonger(dst, base);
        ParentChain(dst, base);
      } else {
        BelowIsLonger(src, base);
        assert src in made ==> src in Subtree(made, base);
      }
    }
  }

  ghost predicate ProperlyCovered(env: Env, t: Tree, after: Tree, op: QueuedOp, r: string) {
    && (Changed(t, after, r) ==> ProperlyAddsNear(env, op, r))
    && (r in t && r !in after ==> ProperlyRemoves(env, op, r))
  }

  /** Nothing below the root changes that a path other than the root does not account for. */
  lemma RootMissesNothing(env: Env, base: string, t: Tree, op: QueuedOp, r: string)
    requires RemoteTree.WellFormed(t) && PlacedBelow(env, base, op) && !EmptiesVault(op, base)
    requires IsRoot(base) || StrictlyUnder(r, base)
    ensures ProperlyCovered(env, t, ReplayTree(env, t, op).tree, op, r)
  {
    if IsRoot(base) || NamesNoRoot(op) {
      NoRootNamed(env, base, t, op, r);
    } else if Removes(op) != {} {
      RootLeaves(env, base, t, op, r);
    } else {
      var p :| p in Adds(op);
      assert PlacedAt(env, base, p);
      RootAddition(env, base, t, op, r);
    }
  }

  lemma RootLeaves(env: Env, base: string, t: Tree, op: QueuedOp, r: string)
    requires RemoteTree.WellFormed(t) && PlacedBelow(env, base, op) && !EmptiesVault(op, base)
    requires !IsRoot(base) && StrictlyUnder(r, base) && !NamesNoRoot(op) && Removes(op) != {}
    ensures ProperlyCovered(env, t, ReplayTree(env, t, op).tree, op, r)
  {
    if op.Rename? {
      assert op.oldPath in Removes(op) && op.newPath in Adds(op);
      assert PlacedAt(env, base, op.oldPath) && PlacedAt(env, base, op.newPath);
      RootRename(env, base, t, op, op.oldPath, op.newPath, r);
    } else {
      assert op.path in Removes(op) && PlacedAt(env, base, op.path);
      if op.TrashLocal? {
        RootRename(env, base, t, op, op.path, TrashPath(op.path), r);
      } else {
        RootRemoval(env, base, t, op, r);
      }
    }
  }

  predicate NamesNoRoot(op: QueuedOp) {
    match op
    case Rename(p, q) => !IsRoot(p) && !IsRoot(q)
    case Copy(_, q) => !IsRoot(q)
    case _ => !IsRoot(op.path)
  }

  lemma NoRootNamed(env: Env, base: string, t: Tree, op: QueuedOp, r: string)
    requires NoRootEntry(t) && PlacedBelow(env, base, op) && (IsRoot(base) || NamesNoRoot(op))
    ensures ProperlyCovered(env, t, ReplayTree(env, t, op).tree, op, r)
  {
    OpChanges(env, t, op, r);
    assert forall p | p in Adds(op) + Removes(op) :: !IsRoot(p) || IsRoot(env.toRemote(p));
  }

  lemma RootRename(env: Env, base: string, t: Tree, op: QueuedOp, p: string, q: string, r: string)
    requires RemoteTree.WellFormed(t) && !IsRoot(base) && StrictlyUnder(r, base)
    requires op == QueuedOp.Rename(p, q) || (op == QueuedOp.TrashLocal(p) && q == TrashPath(p))
    requires PlacedAt(env, base, p) && PlacedAt(env, base, q) && (IsRoot(p) || IsRoot(q))
    ensures ProperlyCovered(env, t, RenameTree(t, env.toRemote(p), env.toRemote(q)).tree, op, r)
  {
    var src, dst := env.toRemote(p), env.toRemote(q);
    RenameWithRoot(t, base, src, dst);
    BelowIsLonger(r, base);
    RenameChanges(t, src, dst, r);
    if Changed(t, Mkdirp(t, ParentDirRemote(dst)).tree, r) { ParentsOnly(t, dst, r); }
    MkdirpProperties(t, ParentDirRemote(dst));
    assert op.Rename? ==> q in Adds(op);
  }

  lemma RootRemoval(env: Env, base: string, t: Tree, op: QueuedOp, r: string)
    requires op.Remove? || (op.Rmdir? && !op.recursive)
    requires env.toRemote(op.path) == base && StrictlyUnder(r, base)
    ensures ProperlyCovered(env, t, ReplayTree(env, t, op).tree, op, r)
  {
    BelowIsLonger(r, base);
    assert r in t ==> r in Subtree(t, base);
  }

  lemma RootAddition(env: Env, base: string, t: Tree, op: QueuedOp, r: string)
    requires NoRootEntry(t) && StrictlyUnder(r, base)
    requires op.Mkdir? || op.Copy? || op.Write? || op.WriteBinary? || op.Append? || op.AppendBinary?
    requires env.toRemote(if op.Copy? then op.dstPath else op.path) == base
    ensures ProperlyCovered(env, t, ReplayTree(env, t, op).tree, op, r)
  {
    BelowIsLonger(r, base);
    if op.Copy? {
      CopyChanges(t, env.toRemote(op.srcPath), base, r);
    } else if op.Mkdir? {
      if Changed(t, Mkdirp(t, base).tree, r) { MkdirpChanges(t, base, r); }
    } else {
      WriteIsPlace(env, t, op);
      if ReplayTree(env, t, op).tree != t {
        var data :| ReplayTree(env, t, op).tree == Place(t, base, data).tree;
        PlaceChanges(t, base, data, r);
      }
    }
  }

  lemma WriteIsPlace(env: Env, t: Tree, op: QueuedOp)
    requires op.Write? || op.WriteBinary? || op.Append? || op.AppendBinary?
    ensures ReplayTree(env, t, op) == Effect(t, false) || exists data :: ReplayTree(env, t, op) == Place(t, env.toRemote(op.path), data)
  {
  }

  lemma ReplayWellFormed(env: Env, t: Tree, op: QueuedOp)
    requires RemoteTree.WellFormed(t) && ReplayTree(env, t, op).ok
    ensures RemoteTree.WellFormed(ReplayTree(env, t, op).tree)
  {
    match op
    case Mkdir(p) => MkdirpProperties(t, env.toRemote(p));
    case Remove(p) => RemoveProperties(t, env.toRemote(p), false);
    case Rmdir(p, recursive) => RemoveProperties(t, env.toRemote(p), recursive);
    case Rename(p, q) => RenameTreeProperties(t, env.toRemote(p), env.toRemote(q));
    case TrashLocal(p) => RenameTreeProperties(t, env.toRemote(p), env.toRemote(TrashPath(p)));
    case Copy(p, q) => CopyTreeProperties(t, env.toRemote(p), env.toRemote(q));
    case _ => WriteWellFormed(env, t, op);
  }

  lemma WriteWellFormed(env: Env, t: Tree, op: QueuedOp)
    requires op.Write? || op.WriteBinary? || op.Append? || op.AppendBinary?
    requires RemoteTree.WellFormed(t) && ReplayTree(env, t, op).ok
    ensures RemoteTree.WellFormed(ReplayTree(env, t, op).tree)
  {
    WriteIsPlace(env, t, op);
    var data :| ReplayTree(env, t, op) == Place(t, env.toRemote(op.path), data);
    PlaceProperties(t, env.toRemote(op.path), data);
  }

  // ---------------------------------------------------------------- vault paths and remote paths

  /** `joinRemote`: the vault below its base. */
  function JoinRemote(base: string, p: string): string {
    if IsRoot(p) then base
    else if base == "" then p
    else if base == "/" then "/" + p
    else base + "/" + p
  }

  /** Below the base nothing changes: the two ways of lying somewhere are the same for vault and remote paths. */
  lemma SameBelowBase(base: string, k: string, p: string)
    requires !IsRoot(k) && !IsRoot(p)
    ensures AtOrUnder(JoinRemote(base, k), JoinRemote(base, p)) <==> AtOrUnder(k, p)
    ensures JoinRemote(base, k) in Ancestors(JoinRemote(base, p)) ==> k in Ancestors(p)
  {
    var pre := if base == "" then "" else if base == "/" then "/" else base + "/";
    var r, place := JoinRemote(base, k), JoinRemote(base, p);
    assert r == pre + k && place == pre + p;
    assert place + "/" == pre + (p + "/");
    PrefixSame(pre, p + "/", k);
    assert r == place <==> k == p by { assert r[|pre|..] == k && place[|pre|..] == p; }
    if r in Ancestors(place) { AncestorBelow(pre, k, p); }
  }

  lemma AncestorBelow(pre: string, k: string, p: string)
    requires !IsRoot(k) && pre + k in Ancestors(pre + p)
    ensures k in Ancestors(p)
  {
    var r, place := pre + k, pre + p;
    assert place[|r|] == '/' && place[..|r|] == r;
    assert p[|k|] == place[|pre| + |k|] && p[..|k|] == place[|pre|..|pre| + |k|] == r[|pre|..];
  }

  lemma PrefixSame(pre: string, a: string, b: string)
    ensures pre + a <= pre + b <==> a <= b
  {
    if pre + a <= pre + b {
      assert forall i | 0 <= i < |a| :: a[i] == (pre + a)[|pre| + i] == (pre + b)[|pre| + i] == b[i];
    }
    if a <= b {
      assert pre + b == pre + a + b[|a|..];
    }
  }

  /** `toRemote`: the client's path mapper, if it has one, and then the base. */
  function Mapped(m: Option<Paths.PathMapper>, p: string): string {
    if m.None? then p else Paths.ToRemote(m.value, p)
  }

  ghost predicate MapsBelow(env: Env, m: Option<Paths.PathMapper>, base: string) {
    && (forall p :: env.toRemote(p) == JoinRemote(base, Mapped(m, p)))
    && (m.Some? ==> Paths.WellFormed(m.value))
  }

  /** A path of the vault proper: not the root, no leading slash, not in the user directory the mapper owns. */
  ghost predicate Outside(m: Option<Paths.PathMapper>, p: string) {
    !IsRoot(p) && (m.Some? ==> p[0] != '/' && !AtOrUnder(p, UserDir(m.value)))
  }

  function UserDir(m: Paths.PathMapper): string {
    m.configDir + "/" + Paths.PRIVATE_USER_SUBDIR
  }

  /** The root is never private, and a path outside the user directory is stored below the base. */
  lemma MappedPlace(env: Env, m: Option<Paths.PathMapper>, base: string, p: string)
    requires MapsBelow(env, m, base) && (IsRoot(p) || Outside(m, p))
    ensures PlacedAt(env, base, p) && (IsRoot(p) <==> IsRoot(Mapped(m, p)))
  {
    if m.Some? && IsRoot(p) { Paths.TopLevelIsShared(m.value, ""); }
    if !IsRoot(p) && !IsRoot(base) { assert base + "/" + Mapped(m, p) == base + "/" + Mapped(m, p); }
  }

  /** What lies at or above a place inside the user directory is inside it too, or at or above the configuration directory. */
  lemma AboveUserDir(m: Paths.PathMapper, inside: string, n: nat)
    requires m.configDir != "" && UserDir(m) + "/" <= inside && n < |inside| && inside[n] == '/'
    ensures AtOrUnder(inside[..n], UserDir(m)) || (n <= |m.configDir| && inside[..n] == m.configDir[..n])
  {
    var dir := UserDir(m);
    assert inside[..|dir|] == dir && inside[|dir|] == '/';
    if n < |dir| {
      assert inside[n] == dir[n];
      assert forall i | |m.configDir| < i < |dir| :: dir[i] != '/';
      assert inside[..n] == dir[..n] && dir[..|m.configDir|] == m.configDir;
    } else if n > |dir| {
      assert inside[..n][..|dir| + 1] == dir + "/";
    }
  }

  /** Where a private path is stored. */
  lemma PrivatePlace(m: Paths.PathMapper, p: string)
    requires Paths.WellFormed(m) && Outside(Some(m), p) && Paths.IsPrivate(m, p)
    ensures m.configDir + "/" <= p
    ensures Paths.ToRemote(m, p) == Paths.PrivateRoot(m) + "/" + p[|m.configDir| + 1..]
    ensures UserDir(m) + "/" <= Paths.ToRemote(m, p)
  {
    Paths.PrivateIsBelowConfigDir(m, p);
    var image := Paths.ToRemote(m, p);
    assert image == UserDir(m) + "/" + m.clientId + "/" + p[|m.configDir| + 1..];
    assert image[..|UserDir(m)| + 1] == UserDir(m) + "/";
  }

  /** Whatever lies near another path once both are mapped lay near it before. */
  lemma MappedNear(m: Option<Paths.PathMapper>, k: string, p: string)
    requires m.Some? ==> Paths.WellFormed(m.value)
    requires Outside(m, k) && Outside(m, p)
    ensures AtOrUnder(Mapped(m, k), Mapped(m, p)) ==> AtOrUnder(k, p)
    ensures Mapped(m, k) in Ancestors(Mapped(m, p)) ==> k in Ancestors(p)
  {
    if m.Some? {
      var kPrivate, pPrivate := Paths.IsPrivate(m.value, k), Paths.IsPrivate(m.value, p);
      if kPrivate && pPrivate {
        BothPrivate(m.value, k, p);
      } else if kPrivate {
        OnlyLowerPrivate(m.value, k, p);
      } else if pPrivate {
        OnlyPlacePrivate(m.value, k, p);
      }
    }
  }

  lemma BothPrivate(m: Paths.PathMapper, k: string, p: string)
    requires Paths.WellFormed(m) && Outside(Some(m), k) && Outside(Some(m), p)
    requires Paths.IsPrivate(m, k) && Paths.IsPrivate(m, p)
    ensures AtOrUnder(Paths.ToRemote(m, k), Paths.ToRemote(m, p)) ==> AtOrUnder(k, p)
    ensures Paths.ToRemote(m, k) in Ancestors(Paths.ToRemote(m, p)) ==> k in Ancestors(p)
  {
    PrivatePlace(m, k);
    PrivatePlace(m, p);
    var root, dir := Paths.PrivateRoot(m) + "/", m.configDir + "/";
    var a, b := k[|dir|..], p[|dir|..];
    assert k == dir + a && p == dir + b;
    assert Paths.ToRemote(m, k) == root + a && Paths.ToRemote(m, p) == root + b;
    SwapPrefix(root, dir, a, b);
  }

  /** Where two paths lie to each other does not depend on the prefix they share. */
  lemma SwapPrefix(root: string, dir: string, a: string, b: string)
    requires |dir| > 1
    ensures AtOrUnder(root + a, root + b) ==> AtOrUnder(dir + a, dir + b)
    ensures root + a in Ancestors(root + b) ==> dir + a in Ancestors(dir + b)
  {
    assert root + b + "/" == root + (b + "/") && dir + b + "/" == dir + (b + "/");
    PrefixSame(root, b + "/", a);
    PrefixSame(dir, b + "/", a);
    assert (root + a)[|root|..] == a && (root + b)[|root|..] == b;
    if root + a in Ancestors(root + b) { SharedAncestor(root, dir, a, b); }
  }

  lemma SharedAncestor(root: string, dir: string, a: string, b: string)
    requires root + a in Ancestors(root + b) && |dir| > 1
    ensures dir + a in Ancestors(dir + b)
  {
    var r, place := root + a, root + b;
    assert place[|r|] == '/' && place[..|r|] == r;
    assert b[|a|] == place[|root| + |a|] && b[..|a|] == place[|root|..|r|] == a;
    assert (dir + b)[|dir + a|] == '/' && (dir + b)[..|dir + a|] == dir + a;
  }

  lemma OnlyLowerPrivate(m: Paths.PathMapper, k: string, p: string)
    requires Paths.WellFormed(m) && Outside(Some(m), k) && Outside(Some(m), p) && Paths.IsPrivate(m, k)
    ensures AtOrUnder(Paths.ToRemote(m, k), p) ==> AtOrUnder(k, p)
    ensures Paths.ToRemote(m, k) !in Ancestors(p)
  {
    PrivatePlace(m, k);
    var image := Paths.ToRemote(m, k);
    if AtOrUnder(image, p) && image != p {
      assert image[|p|] == '/' && image[..|p|] == p;
      AboveUserDir(m, image, |p|);
      assert k[..|m.configDir| + 1] == m.configDir + "/";
      assert k[|p|] == '/' && k[..|p|] == p by {
        assert k[..|p|] == m.configDir[..|p|];
        if |p| < |m.configDir| { assert image[|p|] == (UserDir(m) + "/")[|p|] == m.configDir[|p|] == k[|p|]; }
      }
    }
    InsideStaysInside(m, image, p);
  }

  /** Below a place inside the user directory everything is inside it. */
  lemma InsideStaysInside(m: Paths.PathMapper, inside: string, p: string)
    requires UserDir(m) + "/" <= inside
    ensures AtOrUnder(p, inside) || inside in Ancestors(p) ==> AtOrUnder(p, UserDir(m))
  {
    if inside in Ancestors(p) { AncestorShorter(p, inside); }
    if AtOrUnder(p, inside) {
      assert p[..|UserDir(m)| + 1] == inside[..|UserDir(m)| + 1];
    }
  }

  lemma OnlyPlacePrivate(m: Paths.PathMapper, k: string, p: string)
    requires Paths.WellFormed(m) && Outside(Some(m), k) && Outside(Some(m), p) && Paths.IsPrivate(m, p)
    ensures !AtOrUnder(k, Paths.ToRemote(m, p))
    ensures k in Ancestors(Paths.ToRemote(m, p)) ==> k in Ancestors(p)
  {
    PrivatePlace(m, p);
    var image := Paths.ToRemote(m, p);
    InsideStaysInside(m, image, k);
    if k in Ancestors(image) {
      assert image[|k|] == '/' && image[..|k|] == k;
      AboveUserDir(m, image, |k|);
      assert p[..|m.configDir| + 1] == m.configDir + "/";
      assert p[..|k|] == k && p[|k|] == '/' by {
        if |k| < |m.configDir| { assert image[|k|] == (UserDir(m) + "/")[|k|] == m.configDir[|k|] == p[|k|]; }
      }
    }
  }

  // ---------------------------------------------------------------- the whole queue

  const TRASH := ".trash"

  /** Every path the operation names is the vault root or a path of the vault proper. */
  ghost predicate Named(m: Option<Paths.PathMapper>, op: QueuedOp) {
    && (forall p | p in Adds(op) + Removes(op) :: IsRoot(p) || Outside(m, p))
    && (op.TrashLocal? ==> Outside(m, TrashPath(op.path)))
  }

  /** The two kinds of operation the filter does not see through: trashing, and emptying the vault. */
  predicate Blind(op: QueuedOp, base: string, k: string) {
    (op.TrashLocal? && AtOrUnder(k, TRASH)) || EmptiesVault(op, base)
  }

  predicate SomeBlind(queue: seq<QueuedOp>, base: string, k: string) {
    exists i | 0 <= i < |queue| :: Blind(queue[i], base, k)
  }

  lemma InTrash(path: string, k: string)
    requires AtOrUnder(k, TrashPath(path)) || k in Ancestors(TrashPath(path))
    ensures AtOrUnder(k, TRASH)
  {
    var dst := TrashPath(path);
    assert dst[..7] == TRASH + "/" && forall i | 0 <= i < 6 :: dst[i] != '/';
    if AtOrUnder(k, dst) {
      assert k[..7] == dst[..7];
    } else {
      var i :| 0 < i < |dst| && dst[i] == '/' && dst[..i] != "/" && k == dst[..i];
      assert i >= 6 && (i > 6 ==> k[..7] == dst[..7]);
    }
  }

  /** From a place on the remote back to the paths of the vault. */
  lemma BackToVault(env: Env, m: Option<Paths.PathMapper>, base: string, k: string, p: string)
    requires MapsBelow(env, m, base) && Outside(m, k) && Outside(m, p)
    ensures Near(env.toRemote(k), env.toRemote(p)) ==> AtOrUnder(k, p) || k in Ancestors(p)
    ensures Within(env.toRemote(k), env.toRemote(p)) ==> AtOrUnder(k, p)
  {
    MappedPlace(env, m, base, k);
    MappedPlace(env, m, base, p);
    SameBelowBase(base, Mapped(m, k), Mapped(m, p));
    MappedNear(m, k, p);
  }

  lemma KeptByFilter(env: Env, m: Option<Paths.PathMapper>, base: string, queue: seq<QueuedOp>, i: nat, k: string)
    requires i < |queue| && MapsBelow(env, m, base) && Outside(m, k) && Named(m, queue[i])
    ensures ProperlyAddsNear(env, queue[i], env.toRemote(k)) ==> Keep(FilterOf(queue), k) || Blind(queue[i], base, k)
    ensures ProperlyRemoves(env, queue[i], env.toRemote(k)) ==> Skip(FilterOf(queue), k)
  {
    var op, r := queue[i], env.toRemote(k);
    if p :| p in Adds(op) && !IsRoot(p) && Near(r, env.toRemote(p)) {
      assert p in Added(queue) && p in Adds(op) + Removes(op);
      BackToVault(env, m, base, k, p);
      if AtOrUnder(k, p) && k != p { UnderIsAncestor(k, p); }
    } else if op.TrashLocal? && Near(r, env.toRemote(TrashPath(op.path))) {
      BackToVault(env, m, base, k, TrashPath(op.path));
      InTrash(op.path, k);
    }
    if p :| p in Removes(op) && !IsRoot(p) && Within(r, env.toRemote(p)) {
      assert p in Removed(queue) && p in Adds(op) + Removes(op);
      BackToVault(env, m, base, k, p);
      if k != p { UnderIsAncestor(k, p); }
    }
  }

  lemma NamedIsPlaced(env: Env, m: Option<Paths.PathMapper>, base: string, op: QueuedOp)
    requires MapsBelow(env, m, base) && Named(m, op)
    ensures PlacedBelow(env, base, op)
  {
    forall p | p in Adds(op) + Removes(op) ensures PlacedAt(env, base, p) { MappedPlace(env, m, base, p); }
    if op.TrashLocal? { MappedPlace(env, m, base, TrashPath(op.path)); }
  }

  /** What the filter has to say about `k`, given what replaying makes of the tree. */
  ghost predicate Covers(env: Env, f: PendingFilter, t: Tree, after: Tree, k: string) {
    && (Changed(t, after, env.toRemote(k)) ==> Keep(f, k))
    && (env.toRemote(k) in t && env.toRemote(k) !in after ==> Skip(f, k))
  }

  lemma OneOpCovered(env: Env, m: Option<Paths.PathMapper>, base: string, t: Tree, queue: seq<QueuedOp>, i: nat, k: string)
    requires i < |queue| && MapsBelow(env, m, base) && Outside(m, k) && Named(m, queue[i]) && RemoteTree.WellFormed(t)
    ensures Blind(queue[i], base, k) || Covers(env, FilterOf(queue), t, ReplayTree(env, t, queue[i]).tree, k)
  {
    if !EmptiesVault(queue[i], base) {
      NamedIsPlaced(env, m, base, queue[i]);
      MappedPlace(env, m, base, k);
      RootMissesNothing(env, base, t, queue[i], env.toRemote(k));
      KeptByFilter(env, m, base, queue, i, k);
    }
  }

  /**
   For every path of the vault, private or shared: whatever the queue would make appear or change there is
   kept, and whatever it would make disappear is skipped, up to the first operation that fails. The
   exceptions are an operation of kind `trashLocal`, which the adapter itself never queues since it queues
   the rename into the trash, and a recursive removal of the vault root.
   */
  lemma {:induction false} FilterCoversDifference(env: Env, m: Option<Paths.PathMapper>, base: string, t: Tree, queue: seq<QueuedOp>, k: string)
    requires MapsBelow(env, m, base) && RemoteTree.WellFormed(t)
    requires Outside(m, k) && forall i | 0 <= i < |queue| :: Named(m, queue[i])
    ensures SomeBlind(queue, base, k) || Covers(env, FilterOf(queue), t, ReplayAll(env, t, queue).tree, k)
    decreases |queue|
  {
    if queue != [] {
      var first := ReplayTree(env, t, queue[0]);
      OneOpCovered(env, m, base, t, queue, 0, k);
      if first.ok {
        ReplayWellFormed(env, t, queue[0]);
        FilterCoversDifference(env, m, base, first.tree, queue[1..], k);
        LaterOpsCount(queue, base, k);
      }
    }
  }

  lemma LaterOpsCount(queue: seq<QueuedOp>, base: string, k: string)
    requires queue != []
    ensures Keep(FilterOf(queue[1..]), k) ==> Keep(FilterOf(queue), k)
    ensures Skip(FilterOf(queue[1..]), k) ==> Skip(FilterOf(queue), k)
    ensures SomeBlind(queue[1..], base, k) ==> SomeBlind(queue, base, k)
  {
    assert queue == [queue[0]] + queue[1..];
    assert Added(queue[1..]) <= Added(queue) && Removed(queue[1..]) <= Removed(queue);
  }

  // ---------------------------------------------------------------- exactly which operations

  /** Whatever the tree and the path, the filter of this one operation covers what replaying it changes. */
  ghost predicate AlwaysCovered(env: Env, m: Option<Paths.PathMapper>, op: QueuedOp) {
    forall t, k | RemoteTree.WellFormed(t) && Outside(m, k) :: Covers(env, FilterOf([op]), t, ReplayTree(env, t, op).tree, k)
  }

  /** The filter sees through every operation but the two exceptions, and through neither of those. */
  lemma CoveredExactly(env: Env, m: Option<Paths.PathMapper>, base: string, op: QueuedOp)
    requires MapsBelow(env, m, base) && Named(m, op)
    ensures AlwaysCovered(env, m, op) <==> !op.TrashLocal? && !EmptiesVault(op, base)
  {
    if op.TrashLocal? {
      TrashedIsNotKept(env, m, base, op.path);
    } else if EmptiesVault(op, base) {
      EmptiedIsNotSkipped(env, m, base, op.path);
    } else {
      forall t, k | RemoteTree.WellFormed(t) && Outside(m, k)
        ensures Covers(env, FilterOf([op]), t, ReplayTree(env, t, op).tree, k)
      {
        OneOpCovered(env, m, base, t, [op], 0, k);
      }
    }
  }

  /** Trashing makes the trash directory appear, on the empty tree already, and nothing keeps it. */
  lemma TrashedIsNotKept(env: Env, m: Option<Paths.PathMapper>, base: string, path: string)
    requires MapsBelow(env, m, base)
    ensures RemoteTree.WellFormed(map[]) && Outside(m, TRASH)
    ensures !Covers(env, FilterOf([QueuedOp.TrashLocal(path)]), map[], ReplayTree(env, map[], QueuedOp.TrashLocal(path)).tree, TRASH)
  {
    TrashPlace(env, m, base, path);
    TrashDirNotKept(env, path);
  }

  lemma TrashDirNotKept(env: Env, path: string)
    requires env.toRemote(TRASH) in Ancestors(env.toRemote(TrashPath(path)))
    ensures !Covers(env, FilterOf([QueuedOp.TrashLocal(path)]), map[], ReplayTree(env, map[], QueuedOp.TrashLocal(path)).tree, TRASH)
  {
    OnlyParents(env.toRemote(path), env.toRemote(TrashPath(path)), env.toRemote(TRASH));
    assert Added([QueuedOp.TrashLocal(path)]) == {};
  }

  /** The trash directory is above everything in the trash, wherever that is stored. */
  lemma TrashPlace(env: Env, m: Option<Paths.PathMapper>, base: string, path: string)
    requires MapsBelow(env, m, base)
    ensures Outside(m, TRASH) && env.toRemote(TRASH) in Ancestors(env.toRemote(TrashPath(path)))
  {
    if m.Some? {
      Paths.TopLevelIsShared(m.value, TRASH);
      assert UserDir(m.value)[|m.value.configDir|] == '/';
      TrashImage(m.value, path);
    }
    AboveTrash(base, Mapped(m, TrashPath(path)));
  }

  lemma AboveTrash(base: string, inTrash: string)
    requires TRASH + "/" <= inTrash
    ensures JoinRemote(base, TRASH) in Ancestors(JoinRemote(base, inTrash))
  {
    var pre := if base == "" then "" else if base == "/" then "/" else base + "/";
    assert JoinRemote(base, TRASH) == pre + TRASH && JoinRemote(base, inTrash) == pre + inTrash;
    assert inTrash[..7] == TRASH + "/" && inTrash[6] == '/' && inTrash[..6] == TRASH;
    assert (pre + inTrash)[|pre| + 6] == '/' && (pre + inTrash)[..|pre| + 6] == pre + TRASH;
  }

  lemma TrashImage(m: Paths.PathMapper, path: string)
    requires Paths.WellFormed(m)
    ensures TRASH + "/" <= Paths.ToRemote(m, TrashPath(path))
  {
    var p := TrashPath(path);
    assert p[..7] == TRASH + "/";
    assert p[0] == '.' && Paths.StripLeadingSlash(p) == p;
    if Paths.IsPrivate(m, p) {
      Paths.PrivateIsBelowConfigDir(m, p);
      var conf, image := m.configDir + "/", Paths.ToRemote(m, p);
      assert conf == Paths.ConfigDirSlash(m) && image[..|conf|] == conf;
      SameTop(TRASH, conf, p, image);
    }
  }

  /** Two paths in one directory have the same first component. */
  lemma SameTop(top: string, conf: string, p: string, image: string)
    requires '/' !in top && conf != "" && conf[|conf| - 1] == '/'
    requires top + "/" <= p && conf <= p && conf <= image
    ensures top + "/" <= image
  {
    var n := |conf| - 1;
    assert p[n] == '/' && p[..|top| + 1] == top + "/";
    assert forall i | 0 <= i < |top| :: p[i] == top[i];
    assert conf[..|top| + 1] == p[..|top| + 1] && image[..|top| + 1] == conf[..|top| + 1];
  }

  /** On the empty tree a rename finds nothing to move, and makes the parents all the same. */
  lemma OnlyParents(src: string, dst: string, above: string)
    requires above in Ancestors(dst)
    ensures Changed(map[], RenameTree(map[], src, dst).tree, above)
  {
    var parent := ParentDirRemote(dst);
    var made := Mkdirp(map[], parent).tree;
    ParentChain(dst, above);
    if src in made && !IsRoot(dst) {
      ParentIsAncestor(dst);
      if src != parent { AncestorsTransitive(dst, parent, src); }
      AncestorShorter(dst, src);
    }
  }

  /** Emptying the vault takes a file below it, and nothing skips it. */
  lemma EmptiedIsNotSkipped(env: Env, m: Option<Paths.PathMapper>, base: string, path: string)
    requires MapsBelow(env, m, base) && IsRoot(path) && !IsRoot(base)
    ensures RemoteTree.WellFormed(OneFile(base)) && Outside(m, "x")
    ensures !Covers(env, FilterOf([QueuedOp.Rmdir(path, true)]), OneFile(base), ReplayTree(env, OneFile(base), QueuedOp.Rmdir(path, true)).tree, "x")
  {
    MappedPlace(env, m, base, path);
    if m.Some? {
      Paths.TopLevelIsShared(m.value, "x");
      assert UserDir(m.value)[|m.value.configDir|] == '/';
    }
    OneFileWellFormed(base);
    OneFileTaken(env, base, path);
  }

  lemma OneFileTaken(env: Env, base: string, path: string)
    requires IsRoot(path) && env.toRemote(path) == base && env.toRemote("x") == base + "/x"
    ensures !Covers(env, FilterOf([QueuedOp.Rmdir(path, true)]), OneFile(base), ReplayTree(env, OneFile(base), QueuedOp.Rmdir(path, true)).tree, "x")
  {
    var t, r := OneFile(base), base + "/x";
    assert AtOrUnder(r, base) && r in Subtree(t, base) && base in t && t[base] == Dir;
    assert forall p | p in Removed([QueuedOp.Rmdir(path, true)]) :: p == path;
    assert Ancestors("x") == {};
  }

  /** The base, its parents, and one file in it. */
  function OneFile(base: string): Tree {
    map q | q in Ancestors(base) + {base, base + "/x"} :: if q == base + "/x" then File([]) else Dir
  }

  lemma OneFileWellFormed(base: string)
    requires !IsRoot(base)
    ensures RemoteTree.WellFormed(OneFile(base))
  {
    var r := base + "/x";
    forall k, a | k in OneFile(base) && a in Ancestors(k) ensures a in OneFile(base) && OneFile(base)[a].Dir? {
      AncestorShorter(k, a);
      if k == r {
        assert |a| < |r| && r[|a|] == '/' && r[..|a|] == a;
        assert |a| < |base| ==> base[..|a|] == a && base[|a|] == '/';
        assert |a| == |base| ==> a == base;
      } else {
        AncestorsTransitive(base, k, a);
        AncestorShorter(base, a);
      }
    }
  }

  // ---------------------------------------------------------------- no path is filed in vain

  /** The parents of `r`, and a file or an empty directory there. */
  function Alone(r: string, node: Node): Tree {
    map q | q in Ancestors(r) + {r} :: if q == r then node else Dir
  }

  lemma AloneWellFormed(r: string, node: Node)
    requires !IsRoot(r)
    ensures RemoteTree.WellFormed(Alone(r, node))
  {
    forall k, a | k in Alone(r, node) && a in Ancestors(k) ensures a in Alone(r, node) && Alone(r, node)[a].Dir? {
      AncestorsTransitive(r, k, a);
      AncestorShorter(k, a);
      if k != r { AncestorShorter(r, k); }
    }
    forall k | k in Alone(r, node) ensures !IsRoot(k) { if k != r { AncestorNotRoot(r, k); } }
  }

  /** An operation with two places can take effect only if neither lies at or under the other. */
  ghost predicate Apart(src: string, dst: string) {
    !IsRoot(src) && !IsRoot(dst) && !AtOrUnder(dst, src) && !AtOrUnder(src, dst)
  }

  ghost predicate CanMatter(env: Env, op: QueuedOp) {
    match op
    case Rename(p, q) => Apart(env.toRemote(p), env.toRemote(q))
    case Copy(p, q) => Apart(env.toRemote(p), env.toRemote(q))
    case TrashLocal(p) => Apart(env.toRemote(p), env.toRemote(TrashPath(p)))
    case _ => !IsRoot(env.toRemote(op.path))
  }

  ghost predicate MakesAppear(env: Env, t: Tree, op: QueuedOp, p: string) {
    RemoteTree.WellFormed(t) && env.toRemote(p) !in t && env.toRemote(p) in ReplayTree(env, t, op).tree
  }

  ghost predicate MakesDisappear(env: Env, t: Tree, op: QueuedOp, p: string) {
    RemoteTree.WellFormed(t) && env.toRemote(p) in t && env.toRemote(p) !in ReplayTree(env, t, op).tree
  }

  /** A path filed as added appears on some tree, and a path filed as removed disappears from some tree. */
  ghost predicate HasReason(env: Env, op: QueuedOp) {
    && (forall p | p in Adds(op) :: exists t :: MakesAppear(env, t, op, p))
    && (forall p | p in Removes(op) :: exists t :: MakesDisappear(env, t, op, p))
  }

  /** No operation that can matter at all is filed under a path in vain: no path is protected, or passed over, without need. */
  lemma FiledForAReason(env: Env, op: QueuedOp)
    requires CanMatter(env, op)
    ensures HasReason(env, op)
  {
    if op.Rename? || op.TrashLocal? || op.Copy? {
      PairHasReason(env, op);
    } else if op.Remove? {
      var r := env.toRemote(op.path);
      AloneWellFormed(r, File([]));
      assert MakesDisappear(env, Alone(r, File([])), op, op.path);
    } else if op.Rmdir? {
      DirDisappears(env, op, op.path, op.recursive);
    } else if op.Mkdir? {
      Meaning.Made(map[], env.toRemote(op.path));
      assert MakesAppear(env, map[], op, op.path);
    } else {
      WriteMatters(env, op);
    }
  }

  lemma PairHasReason(env: Env, op: QueuedOp)
    requires CanMatter(env, op) && (op.Rename? || op.TrashLocal? || op.Copy?)
    ensures HasReason(env, op)
  {
    match op
    case Rename(p, q) => MoveHasReason(env, op, p, q);
    case TrashLocal(p) => MoveHasReason(env, op, p, TrashPath(p));
    case Copy(p, q) => CopyHasReason(env, p, q);
  }

  lemma MoveHasReason(env: Env, op: QueuedOp, p: string, q: string)
    requires op == QueuedOp.Rename(p, q) || (op == QueuedOp.TrashLocal(p) && q == TrashPath(p))
    requires Apart(env.toRemote(p), env.toRemote(q))
    ensures HasReason(env, op)
  {
    var t := Alone(env.toRemote(p), File([]));
    MoveMatters(env.toRemote(p), env.toRemote(q));
    MoveReplays(env, t, op, p, q);
    assert MakesDisappear(env, t, op, p) && MakesAppear(env, t, op, q);
    assert Removes(op) == {p} && Adds(op) <= {q};
  }

  lemma MoveReplays(env: Env, t: Tree, op: QueuedOp, p: string, q: string)
    requires op == QueuedOp.Rename(p, q) || (op == QueuedOp.TrashLocal(p) && q == TrashPath(p))
    ensures ReplayTree(env, t, op) == RenameTree(t, env.toRemote(p), env.toRemote(q))
  {
  }

  lemma CopyReplays(env: Env, t: Tree, p: string, q: string)
    ensures ReplayTree(env, t, QueuedOp.Copy(p, q)) == CopyTree(t, env.toRemote(p), env.toRemote(q))
  {
  }

  lemma CopyHasReason(env: Env, p: string, q: string)
    requires Apart(env.toRemote(p), env.toRemote(q))
    ensures HasReason(env, QueuedOp.Copy(p, q))
  {
    var t, op := Alone(env.toRemote(p), File([])), QueuedOp.Copy(p, q);
    CopyMatters(env.toRemote(p), env.toRemote(q));
    CopyReplays(env, t, p, q);
    assert MakesAppear(env, t, op, q);
    assert Removes(op) == {} && Adds(op) == {q};
  }

  lemma WriteMatters(env: Env, op: QueuedOp)
    requires op.Write? || op.WriteBinary? || op.Append? || op.AppendBinary?
    requires !IsRoot(env.toRemote(op.path))
    ensures MakesAppear(env, map[], op, op.path)
  {
    var r := env.toRemote(op.path);
    forall data { Meaning.Placed(map[], r, data); }
    WriteIsPlace(env, map[], op);
    assert ReadTree(map[], r) == NotFound;
  }

  lemma DirDisappears(env: Env, op: QueuedOp, p: string, recursive: bool)
    requires op == QueuedOp.Rmdir(p, recursive) && !IsRoot(env.toRemote(p))
    ensures MakesDisappear(env, Alone(env.toRemote(p), Dir), op, p)
  {
    var r := env.toRemote(p);
    var t := Alone(r, Dir);
    AloneWellFormed(r, Dir);
    forall k | k in t && AtOrUnder(k, r) ensures k == r { Meaning.NotAboveItself(r, k); }
    Meaning.RemovedDir(t, r, recursive);
  }

  lemma MoveMatters(src: string, dst: string)
    requires Apart(src, dst)
    ensures var t := Alone(src, File([]));
            RemoteTree.WellFormed(t) && dst !in t && dst in RenameTree(t, src, dst).tree && src !in RenameTree(t, src, dst).tree
  {
    var t := Alone(src, File([]));
    AloneWellFormed(src, File([]));
    ApartFits(src, dst);
    Meaning.RenameMeans(t, src, dst);
    assert dst + src[|src|..] == dst && AtOrUnder(src, src);
  }

  lemma CopyMatters(src: string, dst: string)
    requires Apart(src, dst)
    ensures var t := Alone(src, File([]));
            RemoteTree.WellFormed(t) && dst !in t && dst in CopyTree(t, src, dst).tree
  {
    AloneWellFormed(src, File([]));
    ApartFits(src, dst);
    Meaning.Copied(Alone(src, File([])), src, dst);
  }

  lemma ApartFits(src: string, dst: string)
    requires Apart(src, dst)
    ensures dst !in Alone(src, File([])) && Meaning.Writable(Alone(src, File([])), dst)
  {
    if dst in Ancestors(src) { AncestorShorter(src, dst); }
    if src in Ancestors(dst) { AncestorShorter(dst, src); }
  }
}
