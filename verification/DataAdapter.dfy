/**
 The adapter itself: the same methods serve a connected and a reconnecting session, step by step
 over the cache, the queue and the client. Each is proved against the edit semantics of OfflineEditing.
 */
module DataAdapter {
  import opened Lru
  import RC = ReadCache
  import opened RemoteTree
  import opened QueuedOps
  import opened OfflineEditing
  import opened OfflineEqualsOnline
  import Meaning = EditMeaning

  datatype State = State(remote: Tree, cache: Cache, queue: seq<QueuedOp>, reconnecting: bool)

  /** What one edit has to do to the adapter's state, in either mode. */
  ghost predicate Performs(env: Env, pre: State, e: Edit, h: Host, post: State, ok: bool) {
    if pre.reconnecting then
      var (s, taken) := OfflineEdit(env, Session(pre.cache, pre.queue), e, h);
      post == State(pre.remote, s.cache, s.queue, true) && ok == taken
    else
      var l := OnlineEdit(env, pre.cache, pre.remote, e, h);
      post == State(l.tree, l.cache, pre.queue, false) && ok == l.ok
  }

  /** What the user is promised while connected, in terms of the remote tree alone. */
  ghost predicate Meant(env: Env, pre: State, e: Edit, post: State, ok: bool) {
    !pre.reconnecting && WellFormed(pre.remote) && Agrees(pre.cache, pre.remote) && (Meaning.NeedsCodec(e) ==> Meaning.TextCodec(env)) ==>
      (ok <==> Meaning.Valid(env, pre.remote, e)) && (ok ==> Meaning.Means(env, pre.remote, e, post.remote))
  }

  /** Whoever performs an edit does what it means. */
  lemma PerformedIsMeant(env: Env, pre: State, e: Edit, h: Host)
    ensures forall post, ok :: Performs(env, pre, e, h, post, ok) ==> Meant(env, pre, e, post, ok)
  {
    if WellFormed(pre.remote) && Agrees(pre.cache, pre.remote) && (Meaning.NeedsCodec(e) ==> Meaning.TextCodec(env)) {
      Meaning.ConnectedEditMeans(env, pre.cache, pre.remote, e, h);
    }
  }

  class DataAdapter {
    const env: Env
    /** The tree the client reaches. */
    var remote: Tree
    const readCache: RC.ReadCache
    var offlineQueue: seq<QueuedOp>
    var reconnecting: bool

    ghost predicate Valid()
      reads this, readCache
    {
      readCache.Valid() && readCache.maxBytes == env.cap
    }

    ghost function Now(): State
      reads this, readCache
    {
      State(remote, readCache.entries, offlineQueue, reconnecting)
    }

    constructor (env: Env, remote: Tree, readCache: RC.ReadCache)
      requires readCache.Valid() && readCache.maxBytes == env.cap
      ensures Valid() && Now() == State(remote, readCache.entries, [], false)
      ensures this.readCache == readCache && this.env == env
    {
      this.env, this.remote, this.readCache := env, remote, readCache;
      offlineQueue, reconnecting := [], false;
    }

    method SetReconnecting(on: bool)
      requires Valid()
      modifies this
      ensures Valid() && Now() == old(Now()).(reconnecting := on)
    {
      reconnecting := on;
    }

    /** A cached hit needs no session; anything else needs the wire. */
    method ReadBuffer(path: string, h: Host) returns (r: ReadResult)
      requires Valid()
      modifies this, readCache
      ensures Valid()
      ensures old(reconnecting) ==>
                var (s, served) := OfflineRead(env, Session(old(Now()).cache, old(Now()).queue), path);
                Now() == old(Now()).(cache := s.cache) && r == if served.Some? then Data(served.value) else Failed
      ensures !old(reconnecting) ==>
                var (c, res) := OnlineRead(env, old(Now()).cache, old(Now()).remote, env.toRemote(path), h);
                Now() == old(Now()).(cache := c) && r == res
    {
      var key := env.toRemote(path);
      if reconnecting {
        var cachedNow := readCache.Peek(key);
        if cachedNow.Some? {
          var _ := readCache.Get(key);
          return Data(cachedNow.value.data);
        }
        return Failed;
      }
      r := ReadBufferOverWire(key, h);
    }

    method ReadBufferOverWire(key: string, h: Host) returns (r: ReadResult)
      requires Valid() && !reconnecting
      modifies this, readCache
      ensures Valid()
      ensures var (c, res) := OnlineRead(env, old(Now()).cache, old(Now()).remote, key, h);
              Now() == old(Now()).(cache := c) && r == res
    {
      var cached := readCache.Peek(key);
      if cached.Some? {
        if key !in remote { return NotFound; }
        if h.confirmed {
          var _ := readCache.Get(key);
          return Data(cached.value.data);
        }
      }
      r := ReadTree(remote, key);
      if r.Data? {
        readCache.Put(key, r.bytes, h.mtime);
      }
    }

    /** Parent directories, the file, then the cache. */
    method WriteBuffer(path: string, data: RC.Bytes, h: Host) returns (ok: bool)
      requires Valid() && !reconnecting
      modifies this, readCache
      ensures Valid()
      ensures var placed := Place(old(remote), env.toRemote(path), data);
              && ok == placed.ok
              && Now() == State(placed.tree,
                                if ok then PutBytes(env, old(Now()).cache, env.toRemote(path), data, h.mtime) else old(Now()).cache,
                                old(offlineQueue), false)
    {
      var key := env.toRemote(path);
      var made := Mkdirp(remote, ParentDirRemote(key));
      remote := made.tree;
      if !made.ok { return false; }
      var written := WriteFile(remote, key, data);
      remote := written.tree;
      if !written.ok { return false; }
      readCache.Put(key, data, h.mtime);
      return true;
    }

    /** Queue the write, then let the editor see its own content. */
    method QueueOrThrow(path: string, data: RC.Bytes, binary: bool, h: Host) returns (ok: bool)
      requires Valid()
      modifies this, readCache
      ensures Valid()
      ensures ok == h.room
      ensures var key := env.toRemote(path);
              var cached := Peek(old(Now()).cache, key);
              var expected := if cached.Some? then Some(cached.value.mtime) else None;
              var q := if binary then QueuedOp.WriteBinary(path, data, expected) else QueuedOp.Write(path, data, expected);
              Now() == if ok then old(Now()).(cache := PutBytes(env, old(Now()).cache, key, data, h.now), queue := old(offlineQueue) + [q])
                       else old(Now())
    {
      var key := env.toRemote(path);
      var cached := readCache.Peek(key);
      var expected := if cached.Some? then Some(cached.value.mtime) else None;
      if !h.room { return false; }
      offlineQueue := offlineQueue + [if binary then QueuedOp.WriteBinary(path, data, expected) else QueuedOp.Write(path, data, expected)];
      readCache.Put(key, data, h.now);
      return true;
    }

    method Write(path: string, data: string, h: Host) returns (ok: bool)
      requires Valid()
      modifies this, readCache
      ensures Valid() && Performs(env, old(Now()), Edit.Write(path, data), h, Now(), ok)
      ensures Meant(env, old(Now()), Edit.Write(path, data), Now(), ok)
    {
      PerformedIsMeant(env, Now(), Edit.Write(path, data), h);
      if reconnecting {
        ok := QueueOrThrow(path, env.encode(data), false, h);
      } else {
        ok := WriteBuffer(path, env.encode(data), h);
      }
    }

    method WriteBinary(path: string, data: RC.Bytes, h: Host) returns (ok: bool)
      requires Valid()
      modifies this, readCache
      ensures Valid() && Performs(env, old(Now()), Edit.WriteBinary(path, data), h, Now(), ok)
      ensures Meant(env, old(Now()), Edit.WriteBinary(path, data), Now(), ok)
    {
      PerformedIsMeant(env, Now(), Edit.WriteBinary(path, data), h);
      if reconnecting {
        ok := QueueOrThrow(path, data, true, h);
      } else {
        ok := WriteBuffer(path, data, h);
      }
    }

    /** Only a missing file counts as empty; any other failed read fails the append. */
    method Append(path: string, data: string, h: Host) returns (ok: bool)
      requires Valid()
      modifies this, readCache
      ensures Valid() && Performs(env, old(Now()), Edit.Append(path, data), h, Now(), ok)
      ensures Meant(env, old(Now()), Edit.Append(path, data), Now(), ok)
    {
      PerformedIsMeant(env, Now(), Edit.Append(path, data), h);
      var offline := reconnecting;
      ReadKeepsPeek(Now().cache, env.toRemote(path));
      var existing := ReadBuffer(path, h);
      var text: string;
      match existing {
        case Data(b) => text := env.decode(b);
        case NotFound => text := "";
        case Failed => return false;
      }
      if offline {
        ok := QueueOrThrow(path, env.encode(text + data), false, h);
      } else {
        ok := WriteBuffer(path, env.encode(text + data), h);
      }
    }

    method AppendBinary(path: string, data: RC.Bytes, h: Host) returns (ok: bool)
      requires Valid()
      modifies this, readCache
      ensures Valid() && Performs(env, old(Now()), Edit.AppendBinary(path, data), h, Now(), ok)
      ensures Meant(env, old(Now()), Edit.AppendBinary(path, data), Now(), ok)
    {
      PerformedIsMeant(env, Now(), Edit.AppendBinary(path, data), h);
      var offline := reconnecting;
      ReadKeepsPeek(Now().cache, env.toRemote(path));
      var existing := ReadBuffer(path, h);
      var bytes: RC.Bytes;
      match existing {
        case Data(b) => bytes := b;
        case NotFound => bytes := [];
        case Failed => return false;
      }
      if offline {
        ok := QueueOrThrow(path, bytes + data, true, h);
      } else {
        ok := WriteBuffer(path, bytes + data, h);
      }
    }

    method Process(path: string, fn: string -> string, h: Host) returns (ok: bool)
      requires Valid()
      modifies this, readCache
      ensures Valid() && Performs(env, old(Now()), Edit.Process(path, fn), h, Now(), ok)
      ensures Meant(env, old(Now()), Edit.Process(path, fn), Now(), ok)
    {
      PerformedIsMeant(env, Now(), Edit.Process(path, fn), h);
      var offline := reconnecting;
      ReadKeepsPeek(Now().cache, env.toRemote(path));
      var current := ReadBuffer(path, h);
      if !current.Data? { return false; }
      var next := fn(env.decode(current.bytes));
      if offline {
        ok := QueueOrThrow(path, env.encode(next), false, h);
      } else {
        ok := WriteBuffer(path, env.encode(next), h);
      }
    }

    method Mkdir(path: string, h: Host) returns (ok: bool)
      requires Valid()
      modifies this, readCache
      ensures Valid() && Performs(env, old(Now()), Edit.Mkdir(path), h, Now(), ok)
      ensures Meant(env, old(Now()), Edit.Mkdir(path), Now(), ok)
    {
      PerformedIsMeant(env, Now(), Edit.Mkdir(path), h);
      if reconnecting {
        ok := QueueMutation(QueuedOp.Mkdir(path), h);
        return;
      }
      var made := Mkdirp(remote, env.toRemote(path));
      remote := made.tree;
      return made.ok;
    }

    method QueueMutation(op: QueuedOp, h: Host) returns (ok: bool)
      requires Valid()
      modifies this
      ensures Valid() && ok == h.room
      ensures Now() == if ok then old(Now()).(queue := old(offlineQueue) + [op]) else old(Now())
    {
      if !h.room { return false; }
      offlineQueue := offlineQueue + [op];
      return true;
    }

    method Remove(path: string, h: Host) returns (ok: bool)
      requires Valid()
      modifies this, readCache
      ensures Valid() && Performs(env, old(Now()), Edit.Remove(path), h, Now(), ok)
      ensures Meant(env, old(Now()), Edit.Remove(path), Now(), ok)
    {
      PerformedIsMeant(env, Now(), Edit.Remove(path), h);
      var key := env.toRemote(path);
      if reconnecting {
        ok := QueueMutation(QueuedOp.Remove(path), h);
      } else {
        var removed := RemoveFile(remote, key);
        remote, ok := removed.tree, removed.ok;
      }
      if ok { readCache.Invalidate(key); }
    }

    method Rmdir(path: string, recursive: bool, h: Host) returns (ok: bool)
      requires Valid()
      modifies this, readCache
      ensures Valid() && Performs(env, old(Now()), Edit.Rmdir(path, recursive), h, Now(), ok)
      ensures Meant(env, old(Now()), Edit.Rmdir(path, recursive), Now(), ok)
    {
      PerformedIsMeant(env, Now(), Edit.Rmdir(path, recursive), h);
      var key := env.toRemote(path);
      if reconnecting {
        ok := QueueMutation(QueuedOp.Rmdir(path, recursive), h);
      } else {
        var removed := RemoveDir(remote, key, recursive);
        remote, ok := removed.tree, removed.ok;
      }
      if ok { var _ := readCache.InvalidatePrefix(key); }
    }

    method Rename(oldPath: string, newPath: string, h: Host) returns (ok: bool)
      requires Valid()
      modifies this, readCache
      ensures Valid() && Performs(env, old(Now()), Edit.Rename(oldPath, newPath), h, Now(), ok)
      ensures Meant(env, old(Now()), Edit.Rename(oldPath, newPath), Now(), ok)
    {
      var oldRemote, newRemote := env.toRemote(oldPath), env.toRemote(newPath);
      if reconnecting {
        ok := QueueMutation(QueuedOp.Rename(oldPath, newPath), h);
      } else {
        ok := RenameOnWire(oldRemote, newRemote);
      }
      if ok {
        var _ := readCache.InvalidatePrefix(oldRemote);
        readCache.Invalidate(newRemote);
      }
      PerformedIsMeant(env, old(Now()), Edit.Rename(oldPath, newPath), h);
    }

    method Copy(oldPath: string, newPath: string, h: Host) returns (ok: bool)
      requires Valid()
      modifies this, readCache
      ensures Valid() && Performs(env, old(Now()), Edit.Copy(oldPath, newPath), h, Now(), ok)
      ensures Meant(env, old(Now()), Edit.Copy(oldPath, newPath), Now(), ok)
    {
      PerformedIsMeant(env, Now(), Edit.Copy(oldPath, newPath), h);
      var newRemote := env.toRemote(newPath);
      if reconnecting {
        ok := QueueMutation(QueuedOp.Copy(oldPath, newPath), h);
      } else {
        ok := CopyOnWire(env.toRemote(oldPath), newRemote);
      }
      if ok { readCache.Invalidate(newRemote); }
    }

    /** Parent directories, then the rename. */
    method RenameOnWire(oldRemote: string, newRemote: string) returns (ok: bool)
      modifies this`remote
      ensures Effect(remote, ok) == RenameTree(old(remote), oldRemote, newRemote)
    {
      var made := Mkdirp(remote, ParentDirRemote(newRemote));
      remote := made.tree;
      if !made.ok { return false; }
      var renamed := RenameNode(remote, oldRemote, newRemote);
      remote := renamed.tree;
      return renamed.ok;
    }

    /** Parent directories, then the copy. */
    method CopyOnWire(srcRemote: string, dstRemote: string) returns (ok: bool)
      modifies this`remote
      ensures Effect(remote, ok) == CopyTree(old(remote), srcRemote, dstRemote)
    {
      var made := Mkdirp(remote, ParentDirRemote(dstRemote));
      remote := made.tree;
      if !made.ok { return false; }
      var copied := CopyFile(remote, srcRemote, dstRemote);
      remote := copied.tree;
      return copied.ok;
    }

    /** A rename under the trash directory, which also handles the reconnecting case. */
    method TrashLocal(path: string, h: Host) returns (ok: bool)
      requires Valid()
      modifies this, readCache
      ensures Valid() && Performs(env, old(Now()), Edit.TrashLocal(path), h, Now(), ok)
      ensures Meant(env, old(Now()), Edit.TrashLocal(path), Now(), ok)
    {
      PerformedIsMeant(env, Now(), Edit.TrashLocal(path), h);
      ok := Rename(path, TrashPath(path), h);
    }

    /** Replay one queued operation; false leaves the entry for the next connect. */
    method ReplayQueuedOp(op: QueuedOp, h: Host) returns (ok: bool)
      requires Valid()
      modifies this, readCache
      ensures Valid()
      ensures old(reconnecting) ==> !ok && Now() == old(Now())
      ensures !old(reconnecting) ==> Performs(env, old(Now()), Replayed(env, op), h, Now(), ok)
    {
      if reconnecting { return false; }
      match op {
        case Write(p, content, _) => ok := WriteBuffer(p, content, h);
        case WriteBinary(p, content, _) => ok := WriteBuffer(p, content, h);
        case Append(p, content) => ok := Append(p, env.decode(content), h);
        case AppendBinary(p, content) => ok := AppendBinary(p, content, h);
        case Mkdir(p) => ok := Mkdir(p, h);
        case Remove(p) => ok := Remove(p, h);
        case Rmdir(p, recursive) => ok := Rmdir(p, recursive, h);
        case Rename(p, q) => ok := Rename(p, q, h);
        case Copy(p, q) => ok := Copy(p, q, h);
        case TrashLocal(p) => ok := TrashLocal(p, h);
      }
    }

    /** The drain: oldest first, each success completing its entry, the first error stopping it. */
    method DrainQueue(hosts: nat -> Host) returns (ok: bool)
      requires Valid() && !reconnecting
      modifies this, readCache
      ensures Valid()
      ensures var l := Drain(env, old(Now()).cache, old(remote), old(offlineQueue), hosts);
              && ok == l.ok && remote == l.tree && readCache.entries == l.cache && !reconnecting
              && (ok ==> offlineQueue == [])
              && exists k | 0 <= k <= |old(offlineQueue)| :: offlineQueue == old(offlineQueue)[k..]
    {
      ghost var all := offlineQueue;
      ghost var k := 0;
      assert offlineQueue == all[0..];
      while offlineQueue != []
        invariant Valid() && !reconnecting
        invariant 0 <= k <= |all| && offlineQueue == all[k..]
        invariant Drain(env, readCache.entries, remote, offlineQueue, hosts) ==
                  Drain(env, old(Now()).cache, old(remote), all, hosts)
        decreases |offlineQueue|
      {
        var entry := offlineQueue[0];
        ok := ReplayQueuedOp(entry, hosts(|offlineQueue|));
        if !ok { return; }
        offlineQueue := offlineQueue[1..];
        k := k + 1;
      }
      return true;
    }
  }

  /** A read's recency bump changes no content, so the queued mtime is the one the read saw. */
  lemma ReadKeepsPeek(cache: Cache, key: string)
    requires Distinct(cache)
    ensures Peek(Touch(cache, key), key) == Peek(cache, key)
  {
    TouchProperties(cache, key);
  }
}
