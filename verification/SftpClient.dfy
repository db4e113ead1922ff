/**
 Recursive listing and deletion over calls that touch one directory at a time. A path is its sequence
 of segments; the server lists a directory in any order, and single calls may fail.
 */
module SftpClient {

  type Path = seq<string>

  /** Whether each existing path is a directory. */
  type Kinds = map<Path, bool>

  function Parent(p: Path): Path
    requires p != []
  {
    p[..|p| - 1]
  }

  ghost predicate WellFormed(t: Kinds) {
    forall p | p in t && |p| > 1 :: IsDir(t, Parent(p))
  }

  predicate IsDir(t: Kinds, p: Path) {
    p in t && t[p]
  }

  predicate Below(p: Path, root: Path) {
    |root| < |p| && root <= p
  }

  predicate ChildOf(p: Path, dir: Path) {
    |p| == |dir| + 1 && dir <= p
  }

  function Children(t: Kinds, dir: Path): set<Path> {
    set p | p in t && ChildOf(p, dir)
  }

  function Subtree(t: Kinds, root: Path): set<Path> {
    set p | p in t && root <= p
  }

  /**
   What a listing of everything below `root` can see: all directories on the way are readable and
   the filter keeps every step of the relative path.
   */
  ghost predicate Visible(t: Kinds, unreadable: set<Path>, keep: Path -> bool, root: Path, p: Path)
    decreases |p|
  {
    && Below(p, root) && p in t && keep(p[|root|..]) && IsDir(t, Parent(p)) && Parent(p) !in unreadable
    && (Parent(p) == root || Visible(t, unreadable, keep, root, Parent(p)))
  }

  predicate NoDuplicates(s: seq<Path>) {
    forall i, j | 0 <= i < j < |s| :: s[i] != s[j]
  }

  function Elements(s: seq<Path>): set<Path> {
    set p | p in s
  }

  lemma NoDuplicatesSnoc(s: seq<Path>, p: Path)
    requires NoDuplicates(s) && p !in s
    ensures NoDuplicates(s + [p]) && Elements(s + [p]) == Elements(s) + {p}
  {
  }

  // ---------------------------------------------------------------- deepest first

  predicate DeepestFirst(dirs: seq<Path>) {
    forall i, j | 0 <= i < j < |dirs| :: |dirs[i]| >= |dirs[j]|
  }

  function InsertByDepth(p: Path, dirs: seq<Path>): seq<Path> {
    if dirs == [] || |dirs[0]| <= |p| then [p] + dirs
    else [dirs[0]] + InsertByDepth(p, dirs[1..])
  }

  lemma {:induction false} InsertedByDepth(p: Path, dirs: seq<Path>)
    requires DeepestFirst(dirs) && NoDuplicates(dirs) && p !in dirs
    ensures forall q :: q in InsertByDepth(p, dirs) <==> q in dirs || q == p
    ensures DeepestFirst(InsertByDepth(p, dirs)) && NoDuplicates(InsertByDepth(p, dirs))
  {
    if dirs == [] || |dirs[0]| <= |p| {
      Prepended(p, dirs);
    } else {
      assert dirs == [dirs[0]] + dirs[1..];
      InsertedByDepth(p, dirs[1..]);
      Prepended(dirs[0], InsertByDepth(p, dirs[1..]));
    }
  }

  lemma Prepended(p: Path, dirs: seq<Path>)
    requires DeepestFirst(dirs) && NoDuplicates(dirs) && forall q | q in dirs :: q != p && |q| <= |p|
    ensures DeepestFirst([p] + dirs) && NoDuplicates([p] + dirs)
  {
  }

  function SortByDepth(dirs: seq<Path>): (sorted: seq<Path>)
    requires NoDuplicates(dirs)
    ensures DeepestFirst(sorted) && NoDuplicates(sorted) && Elements(sorted) == Elements(dirs)
  {
    if dirs == [] then []
    else
      assert dirs == [dirs[0]] + dirs[1..];
      var rest := SortByDepth(dirs[1..]);
      assert dirs[0] !in Elements(rest);
      InsertedByDepth(dirs[0], rest);
      assert Elements(InsertByDepth(dirs[0], rest)) == Elements(rest) + {dirs[0]};
      InsertByDepth(dirs[0], rest)
  }

  function OfKind(t: Kinds, entries: seq<Path>, isDirectory: bool): (some: seq<Path>)
    requires NoDuplicates(entries) && forall p | p in entries :: p in t
    ensures NoDuplicates(some) && forall p :: p in some <==> p in entries && t[p] == isDirectory
  {
    if entries == [] then []
    else
      assert entries == [entries[0]] + entries[1..];
      var rest := OfKind(t, entries[1..], isDirectory);
      if t[entries[0]] == isDirectory then [entries[0]] + rest else rest
  }

  // ---------------------------------------------------------------- breadth-first search

  /** The entries the listings of `listed` yield. */
  ghost function Seen(t: Kinds, unreadable: set<Path>, keep: Path -> bool, root: Path, listed: set<Path>): set<Path> {
    set p | p in t && Below(p, root) && keep(p[|root|..]) && Parent(p) in listed - unreadable && IsDir(t, Parent(p))
  }

  ghost function Kept(keep: Path -> bool, root: Path, entries: seq<Path>): set<Path> {
    set p | p in entries && Below(p, root) && keep(p[|root|..])
  }

  ghost function Dirs(t: Kinds, s: set<Path>): set<Path> {
    set p | p in s && IsDir(t, p)
  }

  /** Every directory found, the root included, was either listed or waits in the queue, and only once. */
  ghost predicate Frontier(t: Kinds, root: Path, listed: set<Path>, queue: seq<Path>, visited: set<Path>, out: seq<Path>) {
    && NoDuplicates(queue) && NoDuplicates(out)
    && listed !! Elements(queue)
    && listed + Elements(queue) == {root} + Dirs(t, Elements(out))
    && visited == Dirs(t, Elements(out))
    && forall p | p in out :: p in t && Below(p, root)
  }

  /** The state between two directories. */
  ghost predicate Searched(t: Kinds, unreadable: set<Path>, keep: Path -> bool, root: Path, listed: set<Path>,
                           queue: seq<Path>, visited: set<Path>, out: seq<Path>) {
    Frontier(t, root, listed, queue, visited, out) && Elements(out) == Seen(t, unreadable, keep, root, listed)
  }

  lemma Dequeued(t: Kinds, unreadable: set<Path>, keep: Path -> bool, root: Path, listed: set<Path>,
                 queue: seq<Path>, visited: set<Path>, out: seq<Path>)
    requires Searched(t, unreadable, keep, root, listed, queue, visited, out) && queue != []
    ensures queue[0] !in listed && root <= queue[0] && queue[0] in t.Keys + {root}
    ensures Scanned(t, unreadable, keep, root, listed, queue[0], [], queue[1..], visited, out)
  {
    assert queue == [queue[0]] + queue[1..];
    assert Elements(queue) == {queue[0]} + Elements(queue[1..]);
    assert queue[0] in Elements(queue);
  }

  lemma SearchStarts(t: Kinds, unreadable: set<Path>, keep: Path -> bool, root: Path)
    ensures Searched(t, unreadable, keep, root, {}, [root], {}, [])
  {
  }

  lemma DirectoryDone(t: Kinds, unreadable: set<Path>, keep: Path -> bool, root: Path, listed: set<Path>, dir: Path,
                      entries: seq<Path>, queue: seq<Path>, visited: set<Path>, out: seq<Path>)
    requires Listing(t, unreadable, dir, entries) && root <= dir && dir !in listed
    requires Scanned(t, unreadable, keep, root, listed, dir, entries[..|entries|], queue, visited, out)
    ensures Searched(t, unreadable, keep, root, listed + {dir}, queue, visited, out)
  {
    assert entries[..|entries|] == entries;
    SeenGrows(t, unreadable, keep, root, listed, dir, entries);
  }

  lemma OneFewerToList(t: Kinds, root: Path, listed: set<Path>, dir: Path)
    requires dir in t.Keys + {root} && dir !in listed
    ensures |t.Keys + {root} - (listed + {dir})| < |t.Keys + {root} - listed|
  {
    assert t.Keys + {root} - (listed + {dir}) == (t.Keys + {root} - listed) - {dir};
  }

  lemma {:induction false} AllVisible(t: Kinds, unreadable: set<Path>, keep: Path -> bool, root: Path, listed: set<Path>,
                   visited: set<Path>, out: seq<Path>)
    requires Searched(t, unreadable, keep, root, listed, [], visited, out)
    ensures NoDuplicates(out)
    ensures forall p :: p in out <==> Visible(t, unreadable, keep, root, p)
  {
    forall p ensures p in out <==> Visible(t, unreadable, keep, root, p) {
      SeenIsVisible(t, unreadable, keep, root, listed, out, p);
    }
  }

  lemma Discovered(t: Kinds, root: Path, listed: set<Path>, queue: seq<Path>, visited: set<Path>, out: seq<Path>, full: Path)
    requires Frontier(t, root, listed, queue, visited, out)
    requires full in t && Below(full, root) && full !in out
    ensures full !in visited
    ensures IsDir(t, full) ==> Frontier(t, root, listed, queue + [full], visited + {full}, out + [full])
    ensures !IsDir(t, full) ==> Frontier(t, root, listed, queue, visited, out + [full])
  {
    NoDuplicatesSnoc(out, full);
    if IsDir(t, full) {
      assert full !in Elements(queue);
      NoDuplicatesSnoc(queue, full);
    }
  }

  /** What the server answers for one directory. */
  ghost predicate Listing(t: Kinds, unreadable: set<Path>, dir: Path, entries: seq<Path>) {
    NoDuplicates(entries) && Elements(entries) == if IsDir(t, dir) && dir !in unreadable then Children(t, dir) else {}
  }

  /** The first `i` entries of `dir` have been dealt with, on top of everything in `listed`. */
  ghost predicate Scanned(t: Kinds, unreadable: set<Path>, keep: Path -> bool, root: Path, listed: set<Path>, dir: Path,
                          done: seq<Path>, queue: seq<Path>, visited: set<Path>, out: seq<Path>) {
    && Frontier(t, root, listed + {dir}, queue, visited, out)
    && Elements(out) == Seen(t, unreadable, keep, root, listed) + Kept(keep, root, done)
  }

  lemma NextEntry(t: Kinds, unreadable: set<Path>, keep: Path -> bool, root: Path, listed: set<Path>, dir: Path,
                  entries: seq<Path>, i: nat, queue: seq<Path>, visited: set<Path>, out: seq<Path>)
    requires Listing(t, unreadable, dir, entries) && i < |entries| && root <= dir && dir !in listed
    requires Scanned(t, unreadable, keep, root, listed, dir, entries[..i], queue, visited, out)
    ensures Below(entries[i], root) && entries[i] in t && entries[i] !in visited
    ensures !keep(entries[i][|root|..]) ==>
              Scanned(t, unreadable, keep, root, listed, dir, entries[..i + 1], queue, visited, out)
    ensures keep(entries[i][|root|..]) && !t[entries[i]] ==>
              Scanned(t, unreadable, keep, root, listed, dir, entries[..i + 1], queue, visited, out + [entries[i]])
    ensures keep(entries[i][|root|..]) && t[entries[i]] ==>
              Scanned(t, unreadable, keep, root, listed, dir, entries[..i + 1], queue + [entries[i]], visited + {entries[i]}, out + [entries[i]])
  {
    var full := entries[i];
    assert full in Elements(entries);
    assert Parent(full) == dir;
    assert entries[..i + 1] == entries[..i] + [full];
    assert full !in Elements(out);
    NoDuplicatesSnoc(out, full);
    Discovered(t, root, listed + {dir}, queue, visited, out, full);
  }

  lemma SeenGrows(t: Kinds, unreadable: set<Path>, keep: Path -> bool, root: Path, listed: set<Path>, dir: Path, entries: seq<Path>)
    requires root <= dir && Listing(t, unreadable, dir, entries)
    ensures Seen(t, unreadable, keep, root, listed + {dir})
            == Seen(t, unreadable, keep, root, listed) + Kept(keep, root, entries)
  {
    assert forall p | ChildOf(p, dir) :: Parent(p) == dir;
    forall p | p in t && Below(p, root) && Parent(p) == dir && IsDir(t, dir) && dir !in unreadable ensures p in entries {
      assert ChildOf(p, dir);
      assert p in Elements(entries);
    }
    forall p | p in entries ensures p in Children(t, dir) && IsDir(t, dir) && dir !in unreadable {
      assert p in Elements(entries);
    }
  }

  lemma {:induction false} SeenIsVisible(t: Kinds, unreadable: set<Path>, keep: Path -> bool, root: Path, listed: set<Path>,
                                         out: seq<Path>, p: Path)
    requires listed == {root} + Dirs(t, Elements(out)) && Elements(out) == Seen(t, unreadable, keep, root, listed)
    ensures p in out <==> Visible(t, unreadable, keep, root, p)
    decreases |p|
  {
    assert p in out <==> p in Elements(out);
    if Below(p, root) && Parent(p) != root {
      assert |p| > |root| + 1 && Below(Parent(p), root);
      assert Parent(p) in listed <==> Parent(p) in out && IsDir(t, Parent(p));
      SeenIsVisible(t, unreadable, keep, root, listed, out, Parent(p));
    }
  }

  // ---------------------------------------------------------------- deletion

  predicate Removable(t: Kinds, locked: set<Path>, p: Path) {
    IsDir(t, p) && p !in locked && Children(t, p) == {}
  }

  const All: Path -> bool := p => true

  /** The guard a recursive delete comes down to: everything below is seen and nothing is locked. */
  ghost predicate CanDelete(t: Kinds, unreadable: set<Path>, locked: set<Path>, root: Path, recursive: bool) {
    && IsDir(t, root) && Subtree(t, root) !! locked
    && forall p | p in Subtree(t, root) && p != root :: recursive && Visible(t, unreadable, All, root, p)
  }

  lemma LeafRemoved(t: Kinds, p: Path)
    requires WellFormed(t) && p in t && (t[p] ==> Children(t, p) == {})
    ensures WellFormed(t - {p})
  {
    forall q | q in t - {p} && |q| > 1 ensures IsDir(t - {p}, Parent(q)) {
      assert Parent(q) == p ==> q in Children(t, p);
    }
  }

  lemma {:induction false} RootRemains(t: Kinds, root: Path, p: Path)
    requires WellFormed(t) && root != [] && root <= p && p in t
    ensures root in t
    decreases |p|
  {
    if p != root { RootRemains(t, root, Parent(p)); }
  }

  /** What has been deleted once the root's turn has come and gone. */
  lemma AllGone(t: Kinds, root: Path, gone: set<Path>)
    requires WellFormed(t - gone) && root != [] && root in gone && gone <= Subtree(t, root)
    ensures gone == Subtree(t, root)
  {
    forall p | p in Subtree(t, root) ensures p in gone {
      if p in t - gone { RootRemains(t - gone, root, p); }
    }
  }

  ghost predicate DeletionOrder(t: Kinds, unreadable: set<Path>, root: Path, files: seq<Path>, dirs: seq<Path>) {
    && NoDuplicates(files) && NoDuplicates(dirs) && DeepestFirst(dirs)
    && (forall p | p in files :: Visible(t, unreadable, All, root, p) && !t[p])
    && (forall p | p in dirs :: Visible(t, unreadable, All, root, p) && t[p])
    && (forall p | Visible(t, unreadable, All, root, p) :: p in files || p in dirs)
  }

  /** `after` is `before` without some of `maybe`. */
  ghost predicate Shrunk(before: Kinds, after: Kinds, maybe: set<Path>) {
    && (forall p | p in after :: p in before && after[p] == before[p])
    && (forall p | p in before && p !in after :: p in maybe)
  }

  lemma PrefixSnoc(s: seq<Path>, i: nat)
    requires NoDuplicates(s) && i < |s|
    ensures Elements(s[..i + 1]) == Elements(s[..i]) + {s[i]} && s[i] !in Elements(s[..i])
  {
    assert s[..i + 1] == s[..i] + [s[i]];
  }

  ghost predicate AllFiles(t: Kinds, files: seq<Path>) {
    NoDuplicates(files) && forall p | p in files :: p in t && !t[p]
  }

  ghost predicate AllDirs(t: Kinds, dirs: seq<Path>) {
    NoDuplicates(dirs) && DeepestFirst(dirs) && forall p | p in dirs :: IsDir(t, p)
  }

  ghost predicate ChildClosed(t: Kinds, dirs: seq<Path>) {
    forall d, c | d in dirs && c in Children(t, d) :: c in dirs
  }

  /** When the turn of `dirs[i]` comes, its children have had theirs. */
  lemma ChildrenFirst(t: Kinds, dirs: seq<Path>, i: nat)
    requires DeepestFirst(dirs) && ChildClosed(t, dirs) && i < |dirs|
    ensures Children(t, dirs[i]) <= Elements(dirs[..i])
  {
    var d := dirs[i];
    assert d in dirs;
    forall c | c in Children(t, d) ensures c in Elements(dirs[..i]) {
      assert c in dirs;
      var j :| 0 <= j < |dirs| && dirs[j] == c;
      assert dirs[..i][j] == c;
    }
  }

  /** The first `i` directories are gone, none of them locked and none with a child that stays. */
  ghost predicate Cleared(t: Kinds, left: Kinds, locked: set<Path>, dirs: seq<Path>, i: nat)
    requires i <= |dirs|
  {
    && left == t - Elements(dirs[..i]) && WellFormed(left) && Elements(dirs[..i]) !! locked
    && forall k | 0 <= k < i :: Children(t, dirs[k]) <= Elements(dirs)
  }

  lemma ChildrenLeft(t: Kinds, gone: set<Path>, d: Path)
    ensures Children(t, d) <= gone + Children(t - gone, d)
  {
  }

  /** The call for `dirs[i]` fails only over a lock or a child that was never going to be removed. */
  lemma Turn(t: Kinds, locked: set<Path>, dirs: seq<Path>, i: nat)
    requires AllDirs(t, dirs) && i < |dirs|
    requires Cleared(t, t - Elements(dirs[..i]), locked, dirs, i)
    ensures Removable(t - Elements(dirs[..i]), locked, dirs[i]) ==>
              Cleared(t, t - Elements(dirs[..i]) - {dirs[i]}, locked, dirs, i + 1)
    ensures !Removable(t - Elements(dirs[..i]), locked, dirs[i]) ==> !(Elements(dirs) !! locked && ChildClosed(t, dirs))
  {
    PrefixSnoc(dirs, i);
    var left := t - Elements(dirs[..i]);
    assert dirs[i] in Elements(dirs);
    if Removable(left, locked, dirs[i]) {
      LeafRemoved(left, dirs[i]);
      ChildrenLeft(t, Elements(dirs[..i]), dirs[i]);
      assert left - {dirs[i]} == t - Elements(dirs[..i + 1]);
    } else if ChildClosed(t, dirs) {
      ChildrenFirst(t, dirs, i);
      assert Children(left, dirs[i]) == {};
    }
  }

  lemma AllCleared(t: Kinds, left: Kinds, locked: set<Path>, dirs: seq<Path>)
    requires Cleared(t, left, locked, dirs, |dirs|)
    ensures Elements(dirs) !! locked && ChildClosed(t, dirs) && left == t - Elements(dirs)
    ensures Shrunk(t, left, Elements(dirs))
  {
    assert dirs[..|dirs|] == dirs;
    forall d, c | d in dirs && c in Children(t, d) ensures c in dirs {
      assert c in Elements(dirs);
    }
  }

  lemma ShrunkTo(t: Kinds, s: seq<Path>, i: nat)
    requires i <= |s|
    ensures Shrunk(t, t - Elements(s[..i]), Elements(s))
  {
  }

  /** If no single call fails, the listing had missed nothing. */
  lemma EverythingWasSeen(t: Kinds, unreadable: set<Path>, locked: set<Path>, root: Path, files: seq<Path>, dirs: seq<Path>)
    requires root != [] && DeletionOrder(t, unreadable, root, files, dirs) && Elements(files) + Elements(dirs) <= Subtree(t, root)
    requires WellFormed(t - Elements(files) - Elements(dirs)) && Elements(files) !! locked && Elements(dirs) !! locked
    ensures var left := t - Elements(files) - Elements(dirs);
            Removable(left, locked, root) ==>
              CanDelete(t, unreadable, locked, root, true) && WellFormed(left - {root}) && left - {root} == t - Subtree(t, root)
  {
    var gone := Elements(files) + Elements(dirs);
    assert t - Elements(files) - Elements(dirs) == t - gone;
    if Removable(t - gone, locked, root) {
      RootWasLast(t, locked, root, gone);
      assert forall p | p in gone :: p in files || p in dirs;
    }
  }

  lemma RootWasLast(t: Kinds, locked: set<Path>, root: Path, gone: set<Path>)
    requires root != [] && gone <= Subtree(t, root) && gone !! locked
    requires WellFormed(t - gone) && Removable(t - gone, locked, root)
    ensures Subtree(t, root) == gone + {root} && Subtree(t, root) !! locked
    ensures WellFormed(t - gone - {root}) && t - gone - {root} == t - Subtree(t, root)
  {
    LeafRemoved(t - gone, root);
    assert t - gone - {root} == t - (gone + {root});
    AllGone(t, root, gone + {root});
  }

  /** If the listing misses nothing and nothing is locked, no single call fails. */
  lemma SeenMeansClosed(t: Kinds, unreadable: set<Path>, locked: set<Path>, root: Path, files: seq<Path>, dirs: seq<Path>)
    requires DeletionOrder(t, unreadable, root, files, dirs)
    ensures CanDelete(t, unreadable, locked, root, true) ==>
              && Elements(files) !! locked && Elements(dirs) !! locked && ChildClosed(t - Elements(files), dirs)
              && Removable(t - Elements(files) - Elements(dirs), locked, root)
  {
    if CanDelete(t, unreadable, locked, root, true) {
      SeenBelow(t, unreadable, locked, root, files, dirs, root);
      assert Elements(files) + Elements(dirs) <= Subtree(t, root);
      forall d, c | d in dirs && c in Children(t - Elements(files), d) ensures c in dirs {
        SeenBelow(t, unreadable, locked, root, files, dirs, d);
        assert c in Children(t, d);
      }
    }
  }

  lemma {:induction false} Ordered(t: Kinds, unreadable: set<Path>, root: Path, entries: seq<Path>, files: seq<Path>, dirs: seq<Path>)
    requires (forall p :: p in entries <==> Visible(t, unreadable, All, root, p)) && forall p | p in entries :: p in t
    requires NoDuplicates(files) && forall p :: p in files <==> p in entries && !t[p]
    requires NoDuplicates(dirs) && DeepestFirst(dirs) && forall p :: p in Elements(dirs) <==> p in entries && t[p]
    ensures DeletionOrder(t, unreadable, root, files, dirs)
    ensures AllFiles(t, files) && AllDirs(t - Elements(files), dirs)
    ensures Elements(files) + Elements(dirs) <= Subtree(t, root)
  {
    assert forall p :: p in dirs <==> p in Elements(dirs);
    assert forall p | Visible(t, unreadable, All, root, p) :: p in entries;
  }

  /** Without recursion the root must have been empty. */
  lemma PlainRmdir(t: Kinds, unreadable: set<Path>, locked: set<Path>, root: Path)
    requires WellFormed(t) && root != []
    ensures Removable(t, locked, root) <==> CanDelete(t, unreadable, locked, root, false)
    ensures Removable(t, locked, root) ==> t - {root} == t - Subtree(t, root) && WellFormed(t - {root})
  {
    if Removable(t, locked, root) {
      LeafRemoved(t, root);
      AllGone(t, root, {root});
    }
    forall c | c in Children(t, root) ensures c in Subtree(t, root) && c != root {
    }
  }

  lemma SeenBelow(t: Kinds, unreadable: set<Path>, locked: set<Path>, root: Path, files: seq<Path>, dirs: seq<Path>, d: Path)
    requires CanDelete(t, unreadable, locked, root, true) && DeletionOrder(t, unreadable, root, files, dirs) && root <= d
    ensures Children(t, d) <= Elements(files) + Elements(dirs)
  {
    forall c | c in Children(t, d) ensures c in Elements(files) + Elements(dirs) {
      assert c in Subtree(t, root) && c != root;
    }
  }

  // ---------------------------------------------------------------- when nothing fails

  /** With every directory readable and no filter, what is visible is every strict descendant. */
  lemma {:induction false} EveryDescendantVisible(t: Kinds, unreadable: set<Path>, root: Path, p: Path)
    requires WellFormed(t) && root != [] && forall d | d in t && t[d] :: d !in unreadable
    ensures Visible(t, unreadable, All, root, p) <==> p in t && Below(p, root)
    decreases |p|
  {
    if p in t && Below(p, root) && Parent(p) != root {
      assert Below(Parent(p), root);
      EveryDescendantVisible(t, unreadable, root, Parent(p));
    }
  }

  /** Then the many calls succeed exactly where one atomic removal of the subtree would. */
  lemma DeletesLikeOneCall(t: Kinds, root: Path, recursive: bool)
    requires WellFormed(t) && root != []
    ensures CanDelete(t, {}, {}, root, recursive) <==> IsDir(t, root) && (recursive || Subtree(t, root) == {root})
  {
    forall p | p in Subtree(t, root) && p != root ensures Visible(t, {}, All, root, p) {
      EveryDescendantVisible(t, {}, root, p);
    }
  }

  // ---------------------------------------------------------------- creation

  /** A path and its ancestors. */
  function Steps(p: Path): set<Path> {
    set i | 0 < i <= |p| :: p[..i]
  }

  function WithDirs(t: Kinds, p: Path): Kinds {
    map q | q in t.Keys + Steps(p) :: if q in t then t[q] else true
  }

  lemma StepsOf(p: Path, i: nat)
    requires i <= |p|
    ensures Steps(p[..i]) == set k | 0 < k <= i :: p[..k]
  {
    assert forall k | 0 < k <= i :: p[..i][..k] == p[..k];
  }

  lemma OneStep(p: Path, i: nat)
    requires i < |p|
    ensures Steps(p[..i + 1]) == Steps(p[..i]) + {p[..i + 1]}
    ensures Parent(p[..i + 1]) == p[..i] && (i > 0 ==> p[..i] in Steps(p[..i]))
  {
    StepsOf(p, i);
    StepsOf(p, i + 1);
  }

  lemma NextDir(t: Kinds, p: Path, i: nat)
    requires WellFormed(t) && i < |p| && WellFormed(WithDirs(t, p[..i]))
    requires forall q | q in Steps(p[..i]) && q in t :: t[q]
    ensures var left, q := WithDirs(t, p[..i]), p[..i + 1];
            && (|q| > 1 ==> IsDir(left, Parent(q)))
            && WithDirs(t, q) == (if q in left then left else left[q := true])
            && (q in left && !left[q] ==> q in t && left == t)
  {
    var q := p[..i + 1];
    OneStep(p, i);
    if q in t { StepsExist(t, p, i); }
  }

  /** The first `i` directories of the chain are there, and no file was in the way. */
  ghost predicate Made(t: Kinds, left: Kinds, p: Path, i: nat)
    requires i <= |p|
  {
    && left == WithDirs(t, p[..i]) && WellFormed(left)
    && forall q | q in Steps(p[..i]) && q in t :: t[q]
  }

  lemma NothingMade(t: Kinds, p: Path)
    requires WellFormed(t)
    ensures Made(t, t, p, 0)
  {
    assert WithDirs(t, p[..0]) == t;
  }

  lemma MadeNext(t: Kinds, left: Kinds, p: Path, i: nat)
    requires WellFormed(t) && i < |p| && Made(t, left, p, i)
    ensures var q := p[..i + 1];
            && q != [] && (|q| > 1 ==> IsDir(left, Parent(q)))
            && (q !in left ==> Made(t, left[q := true], p, i + 1))
            && (q in left && left[q] ==> Made(t, left, p, i + 1))
            && (q in left && !left[q] ==> left == t && q in Steps(p) && q in t && !t[q])
  {
    NextDir(t, p, i);
    OneStep(p, i);
    StepsOf(p, |p|);
    assert p[..|p|] == p;
  }

  /** Where a path exists, making its ancestors changes nothing. */
  lemma StepsExist(t: Kinds, p: Path, i: nat)
    requires WellFormed(t) && i < |p| && p[..i + 1] in t
    ensures WithDirs(t, p[..i]) == t
  {
    StepsOf(p, i);
    forall k | 0 < k <= i ensures p[..k] in t {
      PrefixExists(t, p[..i + 1], k);
      assert p[..i + 1][..k] == p[..k];
    }
  }

  lemma {:induction false} PrefixExists(t: Kinds, q: Path, k: nat)
    requires WellFormed(t) && q in t && 0 < k <= |q|
    ensures q[..k] in t
    decreases |q|
  {
    if k < |q| {
      PrefixExists(t, Parent(q), k);
      assert Parent(q)[..k] == q[..k];
    } else {
      assert q[..k] == q;
    }
  }

  // ---------------------------------------------------------------- the client

  class SftpClient {
    var tree: Kinds
    const unreadable: set<Path>
    const locked: set<Path>

    constructor (tree: Kinds, unreadable: set<Path>, locked: set<Path>)
      ensures this.tree == tree && this.unreadable == unreadable && this.locked == locked
    {
      this.tree, this.unreadable, this.locked := tree, unreadable, locked;
    }

    method List(dir: Path) returns (ok: bool, entries: seq<Path>)
      ensures ok <==> IsDir(tree, dir) && dir !in unreadable
      ensures Listing(tree, unreadable, dir, entries)
    {
      ok, entries := IsDir(tree, dir) && dir !in unreadable, [];
      if !ok { return; }
      var left := Children(tree, dir);
      while left != {}
        invariant NoDuplicates(entries)
        invariant Elements(entries) !! left && Elements(entries) + left == Children(tree, dir)
        decreases left
      {
        var p :| p in left;
        NoDuplicatesSnoc(entries, p);
        entries, left := entries + [p], left - {p};
      }
    }

    /** Breadth first; a directory that cannot be read is skipped. */
    method ListRecursive(root: Path, keep: Path -> bool) returns (out: seq<Path>)
      ensures NoDuplicates(out)
      ensures forall p :: p in out <==> Visible(tree, unreadable, keep, root, p)
    {
      var queue, visited: set<Path> := [root], {};
      out := [];
      ghost var listed: set<Path> := {};
      SearchStarts(tree, unreadable, keep, root);
      while queue != []
        invariant Searched(tree, unreadable, keep, root, listed, queue, visited, out)
        decreases |tree.Keys + {root} - listed|
      {
        var dir := queue[0];
        Dequeued(tree, unreadable, keep, root, listed, queue, visited, out);
        var ok, entries := List(dir);
        queue, visited, out := Scan(root, keep, dir, entries, queue[1..], visited, out, listed);
        DirectoryDone(tree, unreadable, keep, root, listed, dir, entries, queue, visited, out);
        OneFewerToList(tree, root, listed, dir);
        listed := listed + {dir};
      }
      AllVisible(tree, unreadable, keep, root, listed, visited, out);
    }

    /** The inner loop: report what the filter keeps, and queue the directories among it. */
    method Scan(root: Path, keep: Path -> bool, dir: Path, entries: seq<Path>, waiting: seq<Path>, seen: set<Path>,
                reported: seq<Path>, ghost listed: set<Path>)
      returns (queue: seq<Path>, visited: set<Path>, out: seq<Path>)
      requires Listing(tree, unreadable, dir, entries) && root <= dir && dir !in listed
      requires Scanned(tree, unreadable, keep, root, listed, dir, [], waiting, seen, reported)
      ensures Scanned(tree, unreadable, keep, root, listed, dir, entries[..|entries|], queue, visited, out)
    {
      queue, visited, out := waiting, seen, reported;
      for i := 0 to |entries|
        invariant Scanned(tree, unreadable, keep, root, listed, dir, entries[..i], queue, visited, out)
      {
        var full := entries[i];
        NextEntry(tree, unreadable, keep, root, listed, dir, entries, i, queue, visited, out);
        if keep(full[|root|..]) {
          out := out + [full];
          if tree[full] && full !in visited {
            visited, queue := visited + {full}, queue + [full];
          }
        }
      }
    }

    /** A directory already there is a success, a file in its place an error. */
    method Mkdir(p: Path) returns (ok: bool)
      requires p != [] && (|p| > 1 ==> IsDir(tree, Parent(p)))
      modifies this`tree
      ensures ok <==> p !in old(tree) || old(tree)[p]
      ensures tree == if p in old(tree) then old(tree) else old(tree)[p := true]
    {
      if p in tree { return tree[p]; }
      tree := tree[p := true];
      return true;
    }

    /** One directory after the other, from the top. */
    method Mkdirp(p: Path) returns (ok: bool)
      requires WellFormed(tree)
      modifies this`tree
      ensures ok <==> forall q | q in Steps(p) && q in old(tree) :: old(tree)[q]
      ensures tree == if ok then WithDirs(old(tree), p) else old(tree)
      ensures WellFormed(tree)
    {
      ghost var t := tree;
      NothingMade(t, p);
      for i := 0 to |p|
        invariant Made(t, tree, p, i)
      {
        MadeNext(t, tree, p, i);
        ok := Mkdir(p[..i + 1]);
        if !ok { return; }
      }
      assert p[..|p|] == p;
      return true;
    }

    method Remove(p: Path) returns (ok: bool)
      modifies this`tree
      ensures ok <==> p in old(tree) && !old(tree)[p] && p !in locked
      ensures tree == old(tree) - if ok then {p} else {}
    {
      ok := p in tree && !tree[p] && p !in locked;
      if ok { tree := tree - {p}; }
    }

    /** The server refuses a directory that still has an entry. */
    method RemoveEmptyDir(p: Path) returns (ok: bool)
      modifies this`tree
      ensures ok <==> Removable(old(tree), locked, p)
      ensures tree == old(tree) - if ok then {p} else {}
    {
      ok := IsDir(tree, p) && p !in locked && Children(tree, p) == {};
      if ok { tree := tree - {p}; }
    }

    method RemoveFiles(files: seq<Path>) returns (ok: bool)
      requires WellFormed(tree) && AllFiles(tree, files)
      modifies this`tree
      ensures ok <==> Elements(files) !! locked
      ensures Shrunk(old(tree), tree, Elements(files)) && WellFormed(tree)
      ensures ok ==> tree == old(tree) - Elements(files)
    {
      ok := true;
      for i := 0 to |files|
        invariant tree == old(tree) - Elements(files[..i]) && WellFormed(tree)
        invariant Elements(files[..i]) !! locked
      {
        PrefixSnoc(files, i);
        LeafRemoved(tree, files[i]);
        ok := Remove(files[i]);
        if !ok {
          assert files[i] in Elements(files);
          return;
        }
      }
      assert files[..|files|] == files;
    }

    method RemoveDirs(dirs: seq<Path>) returns (ok: bool)
      requires WellFormed(tree) && AllDirs(tree, dirs)
      modifies this`tree
      ensures ok <==> Elements(dirs) !! locked && ChildClosed(old(tree), dirs)
      ensures Shrunk(old(tree), tree, Elements(dirs)) && WellFormed(tree)
      ensures ok ==> tree == old(tree) - Elements(dirs)
    {
      ok := true;
      ghost var t := tree;
      for i := 0 to |dirs|
        invariant Cleared(t, tree, locked, dirs, i)
      {
        Turn(t, locked, dirs, i);
        ok := RemoveEmptyDir(dirs[i]);
        if !ok {
          ShrunkTo(t, dirs, i);
          return;
        }
      }
      AllCleared(t, tree, locked, dirs);
    }

    /** Files first, then directories deepest first, then the root; stops at the first call that fails. */
    method Rmdir(root: Path, recursive: bool) returns (ok: bool)
      requires WellFormed(tree) && root != []
      modifies this`tree
      ensures ok <==> CanDelete(old(tree), unreadable, locked, root, recursive)
      ensures ok ==> tree == old(tree) - Subtree(old(tree), root)
      ensures WellFormed(tree) && Shrunk(old(tree), tree, Subtree(old(tree), root))
    {
      ghost var t := tree;
      if !recursive {
        ok := RemoveEmptyDir(root);
        PlainRmdir(t, unreadable, locked, root);
        return;
      }
      var entries := ListRecursive(root, All);
      var files := OfKind(tree, entries, false);
      var dirs := SortByDepth(OfKind(tree, entries, true));
      Ordered(t, unreadable, root, entries, files, dirs);
      SeenMeansClosed(t, unreadable, locked, root, files, dirs);
      ok := RemoveFiles(files);
      if !ok { return; }
      ok := RemoveDirs(dirs);
      if !ok { return; }
      EverythingWasSeen(t, unreadable, locked, root, files, dirs);
      ok := RemoveEmptyDir(root);
    }
  }
}
