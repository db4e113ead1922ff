/** The operations the offline queue can hold. */
module QueuedOps {
  import opened Lru
  import opened ReadCache

  datatype QueuedOp =
    | Write(path: string, content: Bytes, expectedMtime: Option<int>)
    | WriteBinary(path: string, content: Bytes, expectedMtime: Option<int>)
    | Append(path: string, content: Bytes)
    | AppendBinary(path: string, content: Bytes)
    | Mkdir(path: string)
    | Remove(path: string)
    | Rmdir(path: string, recursive: bool)
    | Rename(oldPath: string, newPath: string)
    | Copy(srcPath: string, dstPath: string)
    | TrashLocal(path: string)
}

/**
 Editing while the session is reconnecting, against the same edits made online.

 The virtual remote is the tree the queued operations would leave: the simulation keeps it equal
 to the tree of the online run, and keeps every cached entry in agreement with it.
 */
module OfflineEditing {
  import opened Lru
  import opened ReadCache
  import opened RemoteTree
  import opened QueuedOps
  import opened Text

  type Cache = seq<Entry<Cached>>

  /** Path mapping, text codec and cache cap of one adapter. Nothing is assumed of them. */
  datatype Env = Env(toRemote: string -> string, decode: Bytes -> string, encode: string -> Bytes, cap: nat)

  /** What the host decides at each step: room in the queue, the clock, and what a stat would say. */
  datatype Host = Host(room: bool, now: int, confirmed: bool, mtime: int)

  datatype Edit =
    | Write(path: string, data: string)
    | WriteBinary(path: string, bytes: Bytes)
    | Append(path: string, data: string)
    | AppendBinary(path: string, bytes: Bytes)
    | Process(path: string, fn: string -> string)
    | Mkdir(path: string)
    | Remove(path: string)
    | Rmdir(path: string, recursive: bool)
    | Rename(oldPath: string, newPath: string)
    | Copy(srcPath: string, dstPath: string)
    | TrashLocal(path: string)

  function TrashPath(path: string): string {
    ".trash/" + path
  }

  // -------------------------------------------------------------- trees only

  datatype ReadResult = Data(bytes: Bytes) | NotFound | Failed

  function ReadTree(t: Tree, r: string): ReadResult {
    if r !in t then NotFound else if t[r].File? then Data(t[r].data) else Failed
  }

  function RenameTree(t: Tree, src: string, dst: string): Effect {
    var made := Mkdirp(t, ParentDirRemote(dst));
    if !made.ok then made else RenameNode(made.tree, src, dst)
  }

  function CopyTree(t: Tree, src: string, dst: string): Effect {
    var made := Mkdirp(t, ParentDirRemote(dst));
    if !made.ok then made else CopyFile(made.tree, src, dst)
  }

  /** The bytes an edit writes, given what a read of its file says; None when it cannot go ahead. */
  function NewContent(env: Env, existing: ReadResult, e: Edit): Option<Bytes> {
    match e
    case Write(_, data) => Some(env.encode(data))
    case WriteBinary(_, bytes) => Some(bytes)
    case Append(_, data) =>
      (match existing
       case Data(b) => Some(env.encode(env.decode(b) + data))
       case NotFound => Some(env.encode("" + data))
       case Failed => None)
    case AppendBinary(_, bytes) =>
      (match existing
       case Data(b) => Some(b + bytes)
       case NotFound => Some([] + bytes)
       case Failed => None)
    case Process(_, fn) =>
      (match existing
       case Data(b) => Some(env.encode(fn(env.decode(b))))
       case _ => None)
    case _ => None
  }

  predicate Reads(e: Edit) {
    e.Append? || e.AppendBinary? || e.Process?
  }

  predicate Writes(e: Edit) {
    e.Write? || e.WriteBinary? || Reads(e)
  }

  /** What one edit made online does to the remote tree. */
  function OnlineTree(env: Env, t: Tree, e: Edit): Effect {
    match e
    case Mkdir(p) => Mkdirp(t, env.toRemote(p))
    case Remove(p) => RemoveFile(t, env.toRemote(p))
    case Rmdir(p, recursive) => RemoveDir(t, env.toRemote(p), recursive)
    case Rename(p, q) => RenameTree(t, env.toRemote(p), env.toRemote(q))
    case Copy(p, q) => CopyTree(t, env.toRemote(p), env.toRemote(q))
    case TrashLocal(p) => RenameTree(t, env.toRemote(p), env.toRemote(TrashPath(p)))
    case _ =>
      (match NewContent(env, ReadTree(t, env.toRemote(e.path)), e)
       case None => Effect(t, false)
       case Some(data) => Place(t, env.toRemote(e.path), data))
  }

  /** What replaying one queued operation does to the remote tree. */
  function ReplayTree(env: Env, t: Tree, q: QueuedOp): Effect {
    match q
    case Write(p, content, _) => Place(t, env.toRemote(p), content)
    case WriteBinary(p, content, _) => Place(t, env.toRemote(p), content)
    case Append(p, content) => OnlineTree(env, t, Edit.Append(p, env.decode(content)))
    case AppendBinary(p, content) => OnlineTree(env, t, Edit.AppendBinary(p, content))
    case Mkdir(p) => OnlineTree(env, t, Edit.Mkdir(p))
    case Remove(p) => OnlineTree(env, t, Edit.Remove(p))
    case Rmdir(p, recursive) => OnlineTree(env, t, Edit.Rmdir(p, recursive))
    case Rename(p, q') => OnlineTree(env, t, Edit.Rename(p, q'))
    case Copy(p, q') => OnlineTree(env, t, Edit.Copy(p, q'))
    case TrashLocal(p) => OnlineTree(env, t, Edit.TrashLocal(p))
  }

  /** The virtual remote: the queue folded over the tree, stopping at the first failure. */
  function ReplayAll(env: Env, t: Tree, queue: seq<QueuedOp>): Effect
    decreases |queue|
  {
    if queue == [] then Effect(t, true)
    else
      var first := ReplayTree(env, t, queue[0]);
      if first.ok then ReplayAll(env, first.tree, queue[1..]) else first
  }

  lemma {:induction false} ReplayAppend(env: Env, t: Tree, queue: seq<QueuedOp>, q: QueuedOp)
    requires ReplayAll(env, t, queue).ok
    ensures ReplayAll(env, t, queue + [q]) == ReplayTree(env, ReplayAll(env, t, queue).tree, q)
    decreases |queue|
  {
    if queue == [] {
      assert queue + [q] == [q] && [q][1..] == [];
      assert ReplayAll(env, ReplayTree(env, t, q).tree, []) == Effect(ReplayTree(env, t, q).tree, true);
    } else {
      var first := ReplayTree(env, t, queue[0]);
      ReplayAppend(env, first.tree, queue[1..], q);
      assert (queue + [q])[1..] == queue[1..] + [q];
    }
  }

  // -------------------------------------------------------------- with caches

  function PutBytes(env: Env, cache: Cache, r: string, data: Bytes, mtime: int): Cache {
    Put(cache, Entry(r, Cached(data, mtime), |data|), env.cap, env.cap)
  }

  function Peek(cache: Cache, r: string): Option<Cached> {
    match Lookup(cache, r)
    case None => None
    case Some(e) => Some(e.value)
  }

  /** `readBufferOverWire`: a cached copy the stat confirms, or the file itself. */
  function OnlineRead(env: Env, cache: Cache, t: Tree, r: string, h: Host): (Cache, ReadResult) {
    match Peek(cache, r)
    case Some(c) =>
      if r !in t then (cache, NotFound)
      else if h.confirmed then (Touch(cache, r), Data(c.data))
      else if t[r].File? then (PutBytes(env, cache, r, t[r].data, h.mtime), Data(t[r].data))
      else (cache, Failed)
    case None =>
      if ReadTree(t, r).Data? then (PutBytes(env, cache, r, t[r].data, h.mtime), ReadTree(t, r))
      else (cache, ReadTree(t, r))
  }

  /** The cache after a mutation went through or was queued. */
  function Forget(env: Env, cache: Cache, e: Edit): Cache {
    match e
    case Remove(p) => Without(cache, Only(env.toRemote(p)))
    case Rmdir(p, _) => Without(cache, AtPrefix(env.toRemote(p)))
    case Rename(p, q) => Without(Without(cache, AtPrefix(env.toRemote(p))), Only(env.toRemote(q)))
    case TrashLocal(p) => Without(Without(cache, AtPrefix(env.toRemote(p))), Only(env.toRemote(TrashPath(p))))
    case Copy(p, q) => Without(cache, Only(env.toRemote(q)))
    case _ => cache
  }

  datatype Live = Live(cache: Cache, tree: Tree, ok: bool)

  /** One edit while connected. */
  function OnlineEdit(env: Env, cache: Cache, t: Tree, e: Edit, h: Host): Live {
    if Writes(e) then
      var r := env.toRemote(e.path);
      var (cache1, existing) := if Reads(e) then OnlineRead(env, cache, t, r, h) else (cache, NotFound);
      match NewContent(env, existing, e)
      case None => Live(cache1, t, false)
      case Some(data) =>
        var placed := Place(t, r, data);
        Live(if placed.ok then PutBytes(env, cache1, r, data, h.mtime) else cache1, placed.tree, placed.ok)
    else
      var done := OnlineTree(env, t, e);
      Live(if done.ok then Forget(env, cache, e) else cache, done.tree, done.ok)
  }

  /** The edit that replaying a queued operation performs: an offline append was queued as a write. */
  function Replayed(env: Env, q: QueuedOp): Edit {
    match q
    case Write(p, content, _) => Edit.WriteBinary(p, content)
    case WriteBinary(p, content, _) => Edit.WriteBinary(p, content)
    case Append(p, content) => Edit.Append(p, env.decode(content))
    case AppendBinary(p, content) => Edit.AppendBinary(p, content)
    case Mkdir(p) => Edit.Mkdir(p)
    case Remove(p) => Edit.Remove(p)
    case Rmdir(p, recursive) => Edit.Rmdir(p, recursive)
    case Rename(p, q') => Edit.Rename(p, q')
    case Copy(p, q') => Edit.Copy(p, q')
    case TrashLocal(p) => Edit.TrashLocal(p)
  }

  datatype Session = Session(cache: Cache, queue: seq<QueuedOp>)

  /** What an offline edit queues, if the cache lets it go ahead. Reads are served from the cache only. */
  function Queued(env: Env, cache: Cache, e: Edit): Option<QueuedOp> {
    match e
    case Mkdir(p) => Some(QueuedOp.Mkdir(p))
    case Remove(p) => Some(QueuedOp.Remove(p))
    case Rmdir(p, recursive) => Some(QueuedOp.Rmdir(p, recursive))
    case Rename(p, q) => Some(QueuedOp.Rename(p, q))
    case Copy(p, q) => Some(QueuedOp.Copy(p, q))
    case TrashLocal(p) => Some(QueuedOp.Rename(p, TrashPath(p)))
    case _ =>
      var binary, path := e.WriteBinary? || e.AppendBinary?, e.path;
      var cached := Peek(cache, env.toRemote(path));
      var existing := if cached.Some? then Data(cached.value.data) else Failed;
      var expected := if cached.Some? then Some(cached.value.mtime) else None;
      match NewContent(env, existing, e)
      case None => None
      case Some(data) =>
        if binary then Some(QueuedOp.WriteBinary(path, data, expected))
        else Some(QueuedOp.Write(path, data, expected))
  }

  /** One edit while reconnecting. */
  function OfflineEdit(env: Env, s: Session, e: Edit, h: Host): (Session, bool) {
    var read := if Reads(e) then Touch(s.cache, env.toRemote(e.path)) else s.cache;
    match Queued(env, s.cache, e)
    case None => (Session(read, s.queue), false)
    case Some(q) =>
      if !h.room then (Session(read, s.queue), false)
      else if Writes(e) then (Session(PutBytes(env, read, env.toRemote(e.path), q.content, h.now), s.queue + [q]), true)
      else (Session(Forget(env, read, e), s.queue + [q]), true)
  }

  /** One read while reconnecting: the cache, or nothing once the wait has run out. */
  function OfflineRead(env: Env, s: Session, path: string): (Session, Option<Bytes>) {
    match Peek(s.cache, env.toRemote(path))
    case None => (s, None)
    case Some(c) => (s.(cache := Touch(s.cache, env.toRemote(path))), Some(c.data))
  }

  // -------------------------------------------------------------- agreement

  /** What the cache holds for `k`, if anything, is what the tree holds. */
  ghost predicate AgreesAt(cache: Cache, t: Tree, k: string) {
    Lookup(cache, k).Some? ==> k in t && t[k] == File(Lookup(cache, k).value.value.data)
  }

  ghost predicate Agrees(cache: Cache, t: Tree) {
    Distinct(cache) && forall k :: AgreesAt(cache, t, k)
  }

  lemma PutAgreesAll(env: Env, cache: Cache, t: Tree, r: string, data: Bytes, mtime: int)
    requires Distinct(cache) && r in t && t[r] == File(data)
    requires forall k | k != r :: AgreesAt(cache, t, k)
    ensures Agrees(PutBytes(env, cache, r, data, mtime), t)
  {
    PutProperties(cache, Entry(r, Cached(data, mtime), |data|), env.cap, env.cap);
    forall k ensures AgreesAt(PutBytes(env, cache, r, data, mtime), t, k) {
      assert k != r ==> AgreesAt(cache, t, k);
    }
  }

  /** The paths whose content an edit may change. */
  predicate Touches(env: Env, e: Edit, k: string) {
    match e
    case Mkdir(_) => false
    case Remove(p) => k == env.toRemote(p)
    case Rmdir(p, _) => AtOrUnder(k, env.toRemote(p))
    case Rename(p, q) => AtOrUnder(k, env.toRemote(p)) || k == env.toRemote(q)
    case TrashLocal(p) => AtOrUnder(k, env.toRemote(p)) || k == env.toRemote(TrashPath(p))
    case Copy(_, q) => k == env.toRemote(q)
    case _ => k == env.toRemote(e.path)
  }

  lemma {:induction false} ForgetProperties(env: Env, cache: Cache, e: Edit, k: string)
    requires Distinct(cache)
    ensures Distinct(Forget(env, cache, e))
    ensures Lookup(Forget(env, cache, e), k) == None || Lookup(Forget(env, cache, e), k) == Lookup(cache, k)
    ensures Touches(env, e, k) && !Writes(e) ==> Lookup(Forget(env, cache, e), k) == None
    ensures e.Mkdir? ==> Forget(env, cache, e) == cache
  {
    match e
    case Remove(p) => ForgetOne(cache, Only(env.toRemote(p)), k);
    case Rmdir(p, _) => ForgetOne(cache, AtPrefix(env.toRemote(p)), k); PrefixCovers(env.toRemote(p), k);
    case Rename(p, q) => ForgetTwo(cache, env.toRemote(p), env.toRemote(q), k);
    case TrashLocal(p) => ForgetTwo(cache, env.toRemote(p), env.toRemote(TrashPath(p)), k);
    case Copy(p, q) => ForgetOne(cache, Only(env.toRemote(q)), k);
    case _ => return;
  }

  lemma {:induction false} ForgetOne(cache: Cache, drop: Victims, k: string)
    requires Distinct(cache)
    ensures Distinct(Without(cache, drop))
    ensures Lookup(Without(cache, drop), k) == if drop.Has(k) then None else Lookup(cache, k)
  {
    WithoutMembers(cache, drop);
    LookupWithout(cache, drop, k);
  }

  lemma {:induction false} ForgetTwo(cache: Cache, p: string, q: string, k: string)
    requires Distinct(cache)
    ensures var c := Without(Without(cache, AtPrefix(p)), Only(q));
            && Distinct(c)
            && Lookup(c, k) == if AtPrefix(p).Has(k) || k == q then None else Lookup(cache, k)
    ensures AtOrUnder(k, p) ==> AtPrefix(p).Has(k)
  {
    ForgetOne(cache, AtPrefix(p), k);
    ForgetOne(Without(cache, AtPrefix(p)), Only(q), k);
    PrefixCovers(p, k);
  }

  /** Dropping a prefix from the cache covers everything a directory operation moves or deletes. */
  lemma PrefixCovers(p: string, k: string)
    ensures AtOrUnder(k, p) ==> AtPrefix(p).Has(k)
  {
    if p != "" && p[|p| - 1] == '/' && p + "/" <= k {
      assert p <= k;
    }
  }

  /** A mutation leaves whatever it lets the cache keep. */
  lemma MutationKeeps(env: Env, cache: Cache, t: Tree, e: Edit, k: string)
    requires WellFormed(t) && Distinct(cache) && !Writes(e) && OnlineTree(env, t, e).ok
    ensures WellFormed(OnlineTree(env, t, e).tree)
    ensures AgreesAt(cache, t, k) ==> AgreesAt(Forget(env, cache, e), OnlineTree(env, t, e).tree, k)
  {
    ForgetProperties(env, cache, e, k);
    match e
    case Mkdir(p) => MkdirpProperties(t, env.toRemote(p));
    case Remove(p) => RemoveProperties(t, env.toRemote(p), false);
    case Rmdir(p, recursive) => RemoveProperties(t, env.toRemote(p), recursive);
    case Rename(p, q) => RenameTreeProperties(t, env.toRemote(p), env.toRemote(q));
    case TrashLocal(p) => RenameTreeProperties(t, env.toRemote(p), env.toRemote(TrashPath(p)));
    case Copy(p, q) => CopyTreeProperties(t, env.toRemote(p), env.toRemote(q));
    case _ => return;
  }

  lemma RenameTreeProperties(t: Tree, src: string, dst: string)
    requires WellFormed(t) && RenameTree(t, src, dst).ok
    ensures var e := RenameTree(t, src, dst).tree;
            && WellFormed(e)
            && forall k | k in t && !AtOrUnder(k, src) && k != dst :: k in e && e[k] == t[k]
  {
    var parent := ParentDirRemote(dst);
    MkdirpProperties(t, parent);
    var made := Mkdirp(t, parent).tree;
    forall a | a in Ancestors(dst) ensures a in made && made[a].Dir? {
      ParentChain(dst, a);
    }
    RenameProperties(made, src, dst);
  }

  lemma CopyTreeProperties(t: Tree, src: string, dst: string)
    requires WellFormed(t) && CopyTree(t, src, dst).ok
    ensures var e := CopyTree(t, src, dst).tree;
            && WellFormed(e)
            && forall k | k in t && k != dst :: k in e && e[k] == t[k]
  {
    var made := Mkdirp(t, ParentDirRemote(dst)).tree;
    assert CopyTree(t, src, dst) == Place(t, dst, made[src].data);
    PlaceProperties(t, dst, made[src].data);
  }

  /** A successful online edit takes an entry that agrees before to one that agrees after. */
  lemma {:induction false} OnlineEditKeeps(env: Env, cache: Cache, t: Tree, e: Edit, h: Host, k: string)
    requires WellFormed(t) && Distinct(cache) && OnlineEdit(env, cache, t, e, h).ok
    requires !Reads(e)
    ensures var l := OnlineEdit(env, cache, t, e, h);
            && l.tree == OnlineTree(env, t, e).tree && OnlineTree(env, t, e).ok
            && WellFormed(l.tree) && Distinct(l.cache)
            && (AgreesAt(cache, t, k) ==> AgreesAt(l.cache, l.tree, k))
            // An entry the edit does not touch is kept as it is or dropped.
            && (Lookup(l.cache, k) == None || Lookup(l.cache, k) == Lookup(cache, k)
                || (Writes(e) && k == env.toRemote(e.path) && AgreesAt(l.cache, l.tree, k)))
  {
    if Writes(e) {
      var r := env.toRemote(e.path);
      var data := NewContent(env, NotFound, e).value;
      PlaceProperties(t, r, data);
      var e' := Entry(r, Cached(data, h.mtime), |data|);
      PutProperties(cache, e', env.cap, env.cap);
    } else {
      MutationKeeps(env, cache, t, e, k);
      ForgetProperties(env, cache, e, k);
    }
  }

  /** With an agreeing cache, a read over the wire answers from the tree, whatever the stat says. */
  lemma OnlineReadTrue(env: Env, cache: Cache, t: Tree, r: string, h: Host)
    requires Agrees(cache, t)
    ensures OnlineRead(env, cache, t, r, h).1 == ReadTree(t, r)
    ensures Agrees(OnlineRead(env, cache, t, r, h).0, t)
  {
    assert AgreesAt(cache, t, r);
    TouchProperties(cache, r);
    forall k ensures AgreesAt(Touch(cache, r), t, k) { assert AgreesAt(cache, t, k); }
    if r in t && t[r].File? { PutAgreesAll(env, cache, t, r, t[r].data, h.mtime); }
  }

  /** Online, edits follow the tree semantics and the cache keeps telling the truth. */
  lemma OnlineEditTrue(env: Env, cache: Cache, t: Tree, e: Edit, h: Host)
    requires WellFormed(t) && Agrees(cache, t) && OnlineTree(env, t, e).ok
    ensures var l := OnlineEdit(env, cache, t, e, h);
            l.ok && l.tree == OnlineTree(env, t, e).tree && WellFormed(l.tree) && Agrees(l.cache, l.tree)
  {
    if Reads(e) {
      var r := env.toRemote(e.path);
      OnlineReadTrue(env, cache, t, r, h);
      var (cache1, existing) := OnlineRead(env, cache, t, r, h);
      var data := NewContent(env, existing, e).value;
      PlaceProperties(t, r, data);
      forall k | k != r ensures AgreesAt(cache1, Place(t, r, data).tree, k) {
        assert AgreesAt(cache1, t, k);
      }
      PutAgreesAll(env, cache1, Place(t, r, data).tree, r, data, h.mtime);
    } else {
      var l := OnlineEdit(env, cache, t, e, h);
      OnlineEditKeeps(env, cache, t, e, h, "");
      forall k ensures AgreesAt(l.cache, l.tree, k) {
        assert AgreesAt(cache, t, k);
        OnlineEditKeeps(env, cache, t, e, h, k);
      }
    }
  }
}
