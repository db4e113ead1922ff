/**
 The remote file tree as the adapter's client sees it: paths are the strings on the wire,
 normalised, and every call either succeeds or leaves an error.
 */
module RemoteTree {
  import opened Text
  import opened ReadCache

  datatype Node = Dir | File(data: Bytes)
  type Tree = map<string, Node>

  /** A call's effect: the tree it leaves, and whether it succeeded. */
  datatype Effect = Effect(tree: Tree, ok: bool)

  function ParentDirRemote(p: string): string {
    if IsRoot(p) then p
    else if '/' !in p then ""
    else if LastSlash(p) == 0 then "/"
    else p[..LastSlash(p)]
  }

  /** The proper ancestors of a path, the root aside. */
  function Ancestors(p: string): set<string> {
    set i | 0 < i < |p| && p[i] == '/' && p[..i] != "/" :: p[..i]
  }

  /** The root is a directory that has no entry of its own. */
  predicate IsRoot(p: string) {
    p == "" || p == "/"
  }

  /** Nothing lives below a file or below a missing directory. */
  ghost predicate WellFormed(t: Tree) {
    NoRootEntry(t) && Chained(t)
  }

  ghost predicate NoRootEntry(t: Tree) {
    forall k | k in t :: !IsRoot(k)
  }

  ghost predicate Chained(t: Tree) {
    forall k, a | k in t && a in Ancestors(k) :: a in t && t[a].Dir?
  }

  /** Create the chain of directories; a file in the way is an error and, being below its own
      existing parents, the first thing reached. */
  function Mkdirp(t: Tree, p: string): Effect {
    var chain := if IsRoot(p) then {} else Ancestors(p) + {p};
    if exists q | q in chain :: q in t && t[q].File? then Effect(t, false)
    else Effect(map q | q in t.Keys + chain :: if q in t then t[q] else Dir, true)
  }

  function WriteFile(t: Tree, p: string, data: Bytes): Effect {
    if IsRoot(p) || (p in t && t[p].Dir?) then Effect(t, false) else Effect(t[p := File(data)], true)
  }

  function RemoveFile(t: Tree, p: string): Effect {
    if p in t && t[p].File? then Effect(t - {p}, true) else Effect(t, false)
  }

  function Subtree(t: Tree, p: string): set<string> {
    set k | k in t && AtOrUnder(k, p)
  }

  function RemoveDir(t: Tree, p: string, recursive: bool): Effect {
    if p !in t || t[p].File? || (!recursive && Subtree(t, p) != {p}) then Effect(t, false)
    else Effect(t - Subtree(t, p), true)
  }

  function Moved(k: string, src: string, dst: string): string
    requires AtOrUnder(k, src)
  {
    dst + k[|src|..]
  }

  lemma MovedBack(k: string, src: string, dst: string)
    requires AtOrUnder(k, src)
    ensures var m := Moved(k, src, dst);
            && AtOrUnder(m, dst) && Moved(m, dst, src) == k
            && (m == dst <==> k == src)
  {
    var m := Moved(k, src, dst);
    assert m[|dst|..] == k[|src|..];
    assert k == src + k[|src|..];
    if k != src {
      assert k[|src|..] == "/" + k[|src| + 1..];
      assert m == dst + "/" + k[|src| + 1..];
      assert m[..|dst| + 1] == dst + "/";
    }
  }

  ghost predicate BackIn(k: string, src: string, dst: string, from: set<string>) {
    AtOrUnder(k, dst) && Moved(k, dst, src) in from
  }

  function Targets(t: Tree, src: string, dst: string): (to: set<string>)
    ensures forall k | k in to :: BackIn(k, src, dst, Subtree(t, src))
    ensures forall k0 | k0 in Subtree(t, src) :: Moved(k0, src, dst) in to
  {
    var to := set k | k in Subtree(t, src) :: Moved(k, src, dst);
    assert forall k | k in to :: BackIn(k, src, dst, Subtree(t, src)) by {
      forall k | k in to ensures BackIn(k, src, dst, Subtree(t, src)) {
        var k0 :| k0 in Subtree(t, src) && k == Moved(k0, src, dst);
        MovedBack(k0, src, dst);
      }
    }
    to
  }

  /** Everything but the subtree at `src`, and that subtree hung at `dst`. */
  function MoveSubtree(t: Tree, src: string, dst: string): Tree {
    (t - Subtree(t, src)) +
    map k | k in Targets(t, src, dst) :: assert BackIn(k, src, dst, Subtree(t, src)); t[Moved(k, dst, src)]
  }

  /** POSIX rename: a file replaces a file, a directory replaces an empty one. */
  function RenameNode(t: Tree, src: string, dst: string): Effect {
    if src !in t || IsRoot(dst) then Effect(t, false)
    else if src == dst then Effect(t, true)
    else if t[src].File? then
      if dst in t && t[dst].Dir? then Effect(t, false) else Effect((t - {src})[dst := t[src]], true)
    else if AtOrUnder(dst, src) || (dst in t && (t[dst].File? || Subtree(t, dst) != {dst})) then Effect(t, false)
    else Effect(MoveSubtree(t, src, dst), true)
  }

  function CopyFile(t: Tree, src: string, dst: string): Effect {
    if src in t && t[src].File? then WriteFile(t, dst, t[src].data) else Effect(t, false)
  }

  // ------------------------------------------------------- well-formedness is kept

  lemma MkdirpProperties(t: Tree, p: string)
    requires WellFormed(t)
    ensures var e := Mkdirp(t, p);
            && WellFormed(e.tree)
            && (forall k | k in t :: k in e.tree && e.tree[k] == t[k])
            && (forall k | k in e.tree && k !in t :: e.tree[k] == Dir)
            && (e.ok && !IsRoot(p) ==> forall a | a in Ancestors(p) + {p} :: a in e.tree && e.tree[a].Dir?)
            && (!e.ok ==> e.tree == t)
  {
    forall a, b | a in Ancestors(p) + {p} && b in Ancestors(a) ensures b in Ancestors(p) + {p} {
      AncestorsTransitive(p, a, b);
    }
  }

  lemma AncestorsTransitive(p: string, a: string, b: string)
    requires a in Ancestors(p) + {p} && b in Ancestors(a)
    ensures b in Ancestors(p) + {p}
  {
    if a != p {
      var i :| 0 < i < |p| && p[i] == '/' && p[..i] != "/" && a == p[..i];
      var j :| 0 < j < |a| && a[j] == '/' && a[..j] != "/" && b == a[..j];
      assert p[j] == '/' && b == p[..j];
    }
  }

  /** A new entry needs its parent chain, which `mkdirp` of the parent provides. */
  lemma ParentChain(p: string, a: string)
    requires a in Ancestors(p)
    ensures var parent := ParentDirRemote(p);
            !IsRoot(parent) && a in Ancestors(parent) + {parent}
  {
    var i :| 0 < i < |p| && p[i] == '/' && p[..i] != "/" && a == p[..i];
    var n := LastSlash(p);
    if i < n {
      assert p[..n][..i] == a && p[..n][i] == '/';
    }
  }

  lemma UnderIsAncestor(k: string, p: string)
    requires AtOrUnder(k, p) && k != p && !IsRoot(p)
    ensures p in Ancestors(k)
  {
    assert k[|p|] == '/' && k[..|p|] == p;
  }

  /** `Mkdirp` of the parent, then a file in its place: how every write and copy lands. */
  function Place(t: Tree, p: string, data: Bytes): Effect {
    var made := Mkdirp(t, ParentDirRemote(p));
    if !made.ok then made else WriteFile(made.tree, p, data)
  }

  lemma PlaceProperties(t: Tree, p: string, data: Bytes)
    requires WellFormed(t) && Place(t, p, data).ok
    ensures var e := Place(t, p, data);
            && WellFormed(e.tree) && p in e.tree && e.tree[p] == File(data)
            && forall k | k in t && k != p :: k in e.tree && e.tree[k] == t[k]
  {
    var parent := ParentDirRemote(p);
    MkdirpProperties(t, parent);
    var made := Mkdirp(t, parent).tree;
    forall k, a | k in made[p := File(data)] && a in Ancestors(k)
      ensures a in made && a != p && made[a].Dir?
    {
      if k == p {
        ParentChain(p, a);
        AncestorShorter(p, a);
      }
    }
  }

  lemma AncestorShorter(p: string, a: string)
    requires a in Ancestors(p)
    ensures |a| < |p| && AtOrUnder(p, a)
  {
    var i :| 0 < i < |p| && p[i] == '/' && p[..i] != "/" && a == p[..i];
    assert p[..i + 1] == a + "/";
  }

  lemma RemovalWellFormed(t: Tree, gone: set<string>)
    requires WellFormed(t)
    requires forall k, a | k in t && a in gone && a in Ancestors(k) :: k in gone
    ensures WellFormed(t - gone)
  {
  }

  lemma RemoveProperties(t: Tree, p: string, recursive: bool)
    requires WellFormed(t)
    ensures WellFormed(RemoveFile(t, p).tree) && WellFormed(RemoveDir(t, p, recursive).tree)
  {
    if p in t && t[p].File? {
      RemovalWellFormed(t, {p});
    }
    var sub := Subtree(t, p);
    forall k, a | k in t && a in sub && a in Ancestors(k) ensures k in sub {
      AncestorShorter(k, a);
    }
    RemovalWellFormed(t, sub);
  }

  /** Rename keeps the tree well formed and touches nothing but the two ends. */
  lemma RenameProperties(t: Tree, src: string, dst: string)
    requires WellFormed(t) && RenameNode(t, src, dst).ok
    requires forall a | a in Ancestors(dst) :: a in t && t[a].Dir?
    ensures var e := RenameNode(t, src, dst);
            && WellFormed(e.tree)
            && forall k | k in t && !AtOrUnder(k, src) && k != dst :: k in e.tree && e.tree[k] == t[k]
  {
    if src == dst {
    } else if t[src].File? {
      FileRename(t, src, dst);
    } else {
      DirRename(t, src, dst);
    }
  }

  lemma FileRename(t: Tree, src: string, dst: string)
    requires WellFormed(t) && RenameNode(t, src, dst).ok && src != dst && t[src].File?
    requires forall a | a in Ancestors(dst) :: a in t && t[a].Dir?
    ensures WellFormed(RenameNode(t, src, dst).tree)
  {
    var e := RenameNode(t, src, dst).tree;
    forall k, a | k in e && a in Ancestors(k) ensures a in e && e[a].Dir? {
      AncestorShorter(k, a);
    }
  }

  lemma DirRename(t: Tree, src: string, dst: string)
    requires WellFormed(t) && RenameNode(t, src, dst).ok && src != dst && t[src].Dir?
    requires forall a | a in Ancestors(dst) :: a in t && t[a].Dir?
    ensures var e := RenameNode(t, src, dst);
            && WellFormed(e.tree)
            && forall k | k in t && !AtOrUnder(k, src) && k != dst :: k in e.tree && e.tree[k] == t[k]
  {
    TargetsAreFree(t, src, dst);
    MovedTreeWellFormed(t, src, dst);
  }

  lemma MovedTreeWellFormed(t: Tree, src: string, dst: string)
    requires WellFormed(t) && src in t && t[src].Dir? && !AtOrUnder(dst, src) && !IsRoot(dst)
    requires forall b | b in Ancestors(dst) :: b in t && t[b].Dir?
    requires forall x | x in t && x != dst :: x !in Targets(t, src, dst)
    ensures WellFormed(MoveSubtree(t, src, dst))
  {
    var moved := MoveSubtree(t, src, dst);
    assert Chained(moved) by {
      forall k, a | k in moved && a in Ancestors(k) ensures a in moved && moved[a].Dir? {
        MovedTreeChain(t, src, dst, k, a);
      }
    }
    assert NoRootEntry(moved) by {
      forall k | k in moved ensures !IsRoot(k) {
        MovedNotRoot(t, src, dst, k);
      }
    }
  }

  lemma MovedNotRoot(t: Tree, src: string, dst: string, k: string)
    requires WellFormed(t) && !IsRoot(dst) && k in MoveSubtree(t, src, dst)
    ensures !IsRoot(k)
  {
    assert k in t || BackIn(k, src, dst, Subtree(t, src));
    if AtOrUnder(k, dst) && |k| == 1 { assert k[..|dst|] == dst; }
  }

  lemma MovedTreeChain(t: Tree, src: string, dst: string, k: string, a: string)
    requires WellFormed(t) && src in t && t[src].Dir? && !AtOrUnder(dst, src) && !IsRoot(dst)
    requires forall b | b in Ancestors(dst) :: b in t && t[b].Dir?
    requires forall x | x in t && x != dst :: x !in Targets(t, src, dst)
    requires k in MoveSubtree(t, src, dst) && a in Ancestors(k)
    ensures a in MoveSubtree(t, src, dst) && MoveSubtree(t, src, dst)[a].Dir?
  {
    if k in Targets(t, src, dst) {
      MovedKeyChain(t, src, dst, k, a);
    } else {
      KeptKeyChain(t, src, k, a);
      if a == dst && a in Targets(t, src, dst) {
        DstHoldsSrc(t, src, dst);
      }
    }
  }

  lemma DstHoldsSrc(t: Tree, src: string, dst: string)
    requires src in t
    ensures dst in MoveSubtree(t, src, dst) && MoveSubtree(t, src, dst)[dst] == t[src]
  {
    assert src in Subtree(t, src) && Moved(src, src, dst) == dst;
    assert dst in Targets(t, src, dst);
    assert Moved(dst, dst, src) == src;
  }

  /** Nothing but perhaps an empty directory is where the subtree goes. */
  lemma TargetsAreFree(t: Tree, src: string, dst: string)
    requires WellFormed(t) && !IsRoot(dst) && !(dst in t && (t[dst].File? || Subtree(t, dst) != {dst}))
    ensures forall k | k in t && k != dst :: k !in Targets(t, src, dst)
  {
    forall k | k in t && k != dst ensures k !in Targets(t, src, dst) {
      assert k in Targets(t, src, dst) ==> BackIn(k, src, dst, Subtree(t, src));
      if AtOrUnder(k, dst) {
        UnderIsAncestor(k, dst);
        assert k in Subtree(t, dst);
      }
    }
  }

  /** An ancestor of a kept path is kept. */
  lemma KeptKeyChain(t: Tree, src: string, k: string, a: string)
    requires WellFormed(t) && k in t && k !in Subtree(t, src) && a in Ancestors(k)
    ensures a in t - Subtree(t, src) && t[a].Dir?
  {
    AncestorShorter(k, a);
    assert !(AtOrUnder(k, a) && AtOrUnder(a, src));
  }

  /** An ancestor of a moved path is a moved directory, or an ancestor of the new place. */
  lemma MovedKeyChain(t: Tree, src: string, dst: string, k: string, a: string)
    requires WellFormed(t) && k in Targets(t, src, dst) && a in Ancestors(k)
    requires !IsRoot(src) && !AtOrUnder(dst, src) && src in t && t[src].Dir?
    requires forall b | b in Ancestors(dst) :: b in t && t[b].Dir?
    requires forall x | x in t && x != dst :: x !in Targets(t, src, dst)
    ensures a in MoveSubtree(t, src, dst) && MoveSubtree(t, src, dst)[a].Dir?
  {
    assert BackIn(k, src, dst, Subtree(t, src));
    if AtOrUnder(a, dst) {
      MovedAncestor(k, a, dst, src);
      var back := Moved(a, dst, src);
      MovedBack(a, dst, src);
      assert back in t && t[back].Dir? && back in Subtree(t, src);
      assert a == Moved(back, src, dst) && a in Targets(t, src, dst);
    } else {
      AncestorOfBoth(k, a, dst);
      AncestorShorter(dst, a);
      assert !(AtOrUnder(dst, a) && AtOrUnder(a, src));
      assert a != dst;
    }
  }

  lemma MovedAncestor(k: string, a: string, dst: string, src: string)
    requires AtOrUnder(k, dst) && AtOrUnder(a, dst) && a in Ancestors(k) && !IsRoot(src)
    ensures Moved(a, dst, src) in Ancestors(Moved(k, dst, src))
  {
    var i :| 0 < i < |k| && k[i] == '/' && k[..i] != "/" && a == k[..i];
    var k', a' := Moved(k, dst, src), Moved(a, dst, src);
    assert k'[|a'|] == '/' && k'[..|a'|] == a';
    assert |a'| >= |src|;
    assert a'[..|src|] == src;
  }

  lemma AncestorOfBoth(k: string, a: string, p: string)
    requires AtOrUnder(k, p) && a in Ancestors(k) && !AtOrUnder(a, p)
    ensures a in Ancestors(p)
  {
    var i :| 0 < i < |k| && k[i] == '/' && k[..i] != "/" && a == k[..i];
    assert k[..|p|] == p;
    if i >= |p| {
      PrefixAtOrUnder(k, p, i);
    } else {
      assert p[i] == '/' && p[..i] == a;
    }
  }

  lemma PrefixAtOrUnder(k: string, p: string, i: nat)
    requires AtOrUnder(k, p) && |p| <= i < |k|
    ensures AtOrUnder(k[..i], p)
  {
    assert k[..i][..|p|] == p;
    if i > |p| {
      assert k[..i][..|p| + 1] == k[..|p| + 1] == p + "/";
    }
  }
}
