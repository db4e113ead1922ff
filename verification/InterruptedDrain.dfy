/**
 A drain cut off part-way, by a dropped session or a crash: what the cache then says about the user's
 files, and what happens when an operation that had already taken effect is replayed once more.
 */
module InterruptedDrain {
  import opened Lru
  import opened ReadCache
  import opened RemoteTree
  import opened QueuedOps
  import opened OfflineEditing
  import opened OfflineEqualsOnline
  import opened Text

  // ---------------------------------------------------------------- what a replay leaves in the cache

  predicate IsWrite(q: QueuedOp) {
    q.Write? || q.WriteBinary?
  }

  /** What replaying the operations would leave in an empty cache: contents only, from the queue alone. */
  function Rebuilt(env: Env, ops: seq<QueuedOp>): Cache {
    if ops == [] then [] else AfterReplay(env, Rebuilt(env, ops[..|ops| - 1]), ops[|ops| - 1], 0)
  }

  function AfterReplay(env: Env, cache: Cache, q: QueuedOp, mtime: int): Cache {
    if IsWrite(q) then PutBytes(env, cache, env.toRemote(q.path), q.content, mtime)
    else Forget(env, cache, Replayed(env, q))
  }

  /** The same cache with every modification time forgotten. */
  function Blank(cache: Cache): Cache {
    if cache == [] then []
    else [Entry(cache[0].key, Cached(cache[0].value.data, 0), cache[0].size)] + Blank(cache[1..])
  }

  lemma {:induction false} BlankConcat(a: Cache, b: Cache)
    ensures Blank(a + b) == Blank(a) + Blank(b)
  {
    if a == [] {
      assert a + b == b;
    } else {
      BlankConcat(a[1..], b);
      assert (a + b)[1..] == a[1..] + b;
    }
  }

  lemma {:induction false} BlankWithout(a: Cache, drop: Victims)
    ensures Blank(Without(a, drop)) == Without(Blank(a), drop)
  {
    if a != [] {
      BlankWithout(a[1..], drop);
      assert Blank(a)[1..] == Blank(a[1..]);
      if !drop.Has(a[0].key) { assert ([a[0]] + Without(a[1..], drop))[1..] == Without(a[1..], drop); }
    }
  }

  lemma {:induction false} BlankEvict(a: Cache, target: nat)
    ensures Total(Blank(a)) == Total(a) && Blank(Evict(a, target)) == Evict(Blank(a), target)
  {
    if a != [] {
      BlankEvict(a[1..], target);
      assert Blank(a)[1..] == Blank(a[1..]);
    }
  }

  lemma {:induction false} BlankLookup(a: Cache, key: string)
    ensures Lookup(Blank(a), key).Some? <==> Lookup(a, key).Some?
    ensures Lookup(a, key).Some? ==> Lookup(Blank(a), key).value.value.data == Lookup(a, key).value.value.data
  {
    if a != [] {
      BlankLookup(a[1..], key);
      assert Blank(a)[1..] == Blank(a[1..]);
    }
  }

  lemma {:induction false} BlankPut(env: Env, a: Cache, r: string, data: Bytes, mtime: int)
    ensures Blank(PutBytes(env, a, r, data, mtime)) == PutBytes(env, Blank(a), r, data, 0)
  {
    var kept, e := Without(a, Only(r)), Entry(r, Cached(data, mtime), |data|);
    BlankWithout(a, Only(r));
    BlankConcat(kept, [e]);
    assert [e][1..] == [] && Blank([e]) == [Entry(r, Cached(data, 0), |data|)];
    BlankEvict(kept + [e], env.cap);
  }

  lemma {:induction false} BlankForget(env: Env, a: Cache, e: Edit)
    ensures Blank(Forget(env, a, e)) == Forget(env, Blank(a), e)
  {
    match e
    case Remove(p) => BlankWithout(a, Only(env.toRemote(p)));
    case Rmdir(p, _) => BlankWithout(a, AtPrefix(env.toRemote(p)));
    case Rename(p, q) => BlankTwo(a, env.toRemote(p), env.toRemote(q));
    case TrashLocal(p) => BlankTwo(a, env.toRemote(p), env.toRemote(TrashPath(p)));
    case Copy(_, q) => BlankWithout(a, Only(env.toRemote(q)));
    case _ =>
  }

  lemma {:induction false} BlankTwo(a: Cache, p: string, q: string)
    ensures Blank(Without(Without(a, AtPrefix(p)), Only(q))) == Without(Without(Blank(a), AtPrefix(p)), Only(q))
  {
    BlankWithout(a, AtPrefix(p));
    BlankWithout(Without(a, AtPrefix(p)), Only(q));
  }

  // ---------------------------------------------------------------- old entries and new ones

  /** The cache is made of entries from before the drain and, younger, what the replay put there. */
  ghost predicate OldAndNew(env: Env, was: Cache, done: seq<QueuedOp>, cache: Cache, old': Cache, new': Cache) {
    && cache == old' + new' && Distinct(cache) && Blank(new') == Rebuilt(env, done)
    && forall k :: Lookup(old', k) == None || Lookup(old', k) == Lookup(was, k)
  }

  /** Eviction takes the old part first, and the young part as if it were alone. */
  lemma EvictConcat(a: Cache, b: Cache, target: nat) returns (a': Cache)
    ensures Evict(a + b, target) == a' + Evict(b, target)
    ensures exists k :: 0 <= k <= |a| && a' == a[k..]
  {
    if a == [] {
      assert a + b == b && a[0..] == [];
      a' := [];
      assert a' + Evict(b, target) == Evict(b, target);
    } else {
      TotalConcat(a, b);
      if Total(a + b) <= target {
        a' := a;
        assert a == a[0..];
      } else {
        a' := EvictConcat(a[1..], b, target);
        assert (a + b)[1..] == a[1..] + b;
        var k :| 0 <= k <= |a[1..]| && a' == a[1..][k..];
        assert a' == a[k + 1..];
      }
    }
  }

  lemma {:induction false} DistinctParts(a: Cache, b: Cache, key: string)
    requires Distinct(a + b)
    ensures Distinct(a) && Distinct(b)
    ensures Lookup(a + b, key) == if Lookup(b, key).Some? then Lookup(b, key) else Lookup(a, key)
  {
    LookupConcat(a, b, key);
    LookupMember(a, key);
    LookupMember(b, key);
    assert forall i | 0 <= i < |a| :: (a + b)[i] == a[i];
    assert forall i | 0 <= i < |b| :: (a + b)[|a| + i] == b[i];
  }

  /** A put on old and new entries is a put on the new ones, behind what is left of the old. */
  lemma PutConcat(env: Env, a: Cache, b: Cache, r: string, data: Bytes, mtime: int) returns (a': Cache)
    requires Distinct(a + b)
    ensures PutBytes(env, a + b, r, data, mtime) == a' + PutBytes(env, b, r, data, mtime)
    ensures forall k :: Lookup(a', k) == None || Lookup(a', k) == Lookup(a, k)
  {
    var e := Entry(r, Cached(data, mtime), |data|);
    var wa, wb := Without(a, Only(r)), Without(b, Only(r));
    WithoutConcat(a, b, Only(r));
    assert wa + wb + [e] == wa + (wb + [e]);
    a' := EvictConcat(wa, wb + [e], env.cap);
    DistinctParts(a, b, r);
    var k :| 0 <= k <= |wa| && a' == wa[k..];
    forall x ensures Lookup(a', x) == None || Lookup(a', x) == Lookup(a, x) {
      ForgetOne(a, Only(r), x);
      LookupSuffix(wa, k, x);
    }
  }

  lemma ForgetConcat(env: Env, a: Cache, b: Cache, e: Edit)
    ensures Forget(env, a + b, e) == Forget(env, a, e) + Forget(env, b, e)
  {
    match e
    case Remove(p) => WithoutConcat(a, b, Only(env.toRemote(p)));
    case Rmdir(p, _) => WithoutConcat(a, b, AtPrefix(env.toRemote(p)));
    case Rename(p, q) => TwoConcat(a, b, env.toRemote(p), env.toRemote(q));
    case TrashLocal(p) => TwoConcat(a, b, env.toRemote(p), env.toRemote(TrashPath(p)));
    case Copy(_, q) => WithoutConcat(a, b, Only(env.toRemote(q)));
    case _ =>
  }

  lemma {:induction false} TwoConcat(a: Cache, b: Cache, p: string, q: string)
    ensures Without(Without(a + b, AtPrefix(p)), Only(q))
            == Without(Without(a, AtPrefix(p)), Only(q)) + Without(Without(b, AtPrefix(p)), Only(q))
  {
    WithoutConcat(a, b, AtPrefix(p));
    WithoutConcat(Without(a, AtPrefix(p)), Without(b, AtPrefix(p)), Only(q));
  }

  lemma OldAndNewStep(env: Env, was: Cache, done: seq<QueuedOp>, cache: Cache, old': Cache, new': Cache, q: QueuedOp, mtime: int)
    returns (older: Cache, newer: Cache)
    requires OldAndNew(env, was, done, cache, old', new') && !q.Append? && !q.AppendBinary?
    ensures OldAndNew(env, was, done + [q], AfterReplay(env, cache, q, mtime), older, newer)
  {
    assert (done + [q])[..|done|] == done;
    DistinctParts(old', new', "");
    newer := AfterReplay(env, new', q, mtime);
    if IsWrite(q) {
      var r := env.toRemote(q.path);
      older := PutConcat(env, old', new', r, q.content, mtime);
      BlankPut(env, new', r, q.content, mtime);
      PutProperties(cache, Entry(r, Cached(q.content, mtime), |q.content|), env.cap, env.cap);
    } else {
      var e := Replayed(env, q);
      older := Forget(env, old', e);
      ForgetConcat(env, old', new', e);
      BlankForget(env, new', e);
      ForgetProperties(env, cache, e, "");
      forall k ensures Lookup(older, k) == None || Lookup(older, k) == Lookup(was, k) {
        ForgetProperties(env, old', e, k);
      }
    }
  }

  /** The cache after replaying `rest`, when nothing fails. */
  function CacheAfter(env: Env, cache: Cache, rest: seq<QueuedOp>, hosts: nat -> Host): Cache
    decreases |rest|
  {
    if rest == [] then cache
    else CacheAfter(env, AfterReplay(env, cache, rest[0], hosts(|rest|).mtime), rest[1..], hosts)
  }

  lemma ReplayedLive(env: Env, cache: Cache, t: Tree, q: QueuedOp, h: Host)
    requires !q.Append? && !q.AppendBinary? && ReplayTree(env, t, q).ok
    ensures OnlineEdit(env, cache, t, Replayed(env, q), h)
            == Live(AfterReplay(env, cache, q, h.mtime), ReplayTree(env, t, q).tree, true)
  {
    ReplayedIsOnline(env, cache, t, q, h);
  }

  lemma {:induction false} DrainIs(env: Env, cache: Cache, t: Tree, rest: seq<QueuedOp>, hosts: nat -> Host)
    requires NoAppends(rest) && ReplayAll(env, t, rest).ok
    ensures Drain(env, cache, t, rest, hosts) == Live(CacheAfter(env, cache, rest, hosts), ReplayAll(env, t, rest).tree, true)
    decreases |rest|
  {
    if rest != [] {
      var q, h := rest[0], hosts(|rest|);
      ReplayedLive(env, cache, t, q, h);
      DrainIs(env, AfterReplay(env, cache, q, h.mtime), ReplayTree(env, t, q).tree, rest[1..], hosts);
    }
  }

  lemma OldAndNewAfter(env: Env, was: Cache, done: seq<QueuedOp>, cache: Cache, old': Cache, new': Cache,
                       rest: seq<QueuedOp>, hosts: nat -> Host)
    returns (older: Cache, newer: Cache)
    requires OldAndNew(env, was, done, cache, old', new') && NoAppends(rest)
    ensures OldAndNew(env, was, done + rest, CacheAfter(env, cache, rest, hosts), older, newer)
    decreases |rest|
  {
    if rest == [] {
      older, newer := old', new';
      assert done + rest == done;
    } else {
      var q, mtime := rest[0], hosts(|rest|).mtime;
      assert done + [q] + rest[1..] == done + rest;
      older, newer := OldAndNewStep(env, was, done, cache, old', new', q, mtime);
      older, newer := OldAndNewAfter(env, was, done + [q], AfterReplay(env, cache, q, mtime), older, newer, rest[1..], hosts);
    }
  }

  lemma {:induction false} ReplayConcat(env: Env, t: Tree, x: seq<QueuedOp>, y: seq<QueuedOp>)
    ensures ReplayAll(env, t, x + y) == if ReplayAll(env, t, x).ok then ReplayAll(env, ReplayAll(env, t, x).tree, y) else ReplayAll(env, t, x)
    decreases |x|
  {
    if x == [] {
      assert x + y == y;
    } else {
      var first := ReplayTree(env, t, x[0]);
      assert (x + y)[0] == x[0] && (x + y)[1..] == x[1..] + y;
      if first.ok { ReplayConcat(env, first.tree, x[1..], y); }
    }
  }

  // ---------------------------------------------------------------- which write an entry comes from

  /** The operation takes whatever is cached for `r` away. */
  predicate Displaces(env: Env, q: QueuedOp, r: string) {
    match q
    case Write(p, _, _) => r == env.toRemote(p)
    case WriteBinary(p, _, _) => r == env.toRemote(p)
    case Remove(p) => r == env.toRemote(p)
    case Rmdir(p, _) => AtPrefix(env.toRemote(p)).Has(r)
    case Rename(p, q') => AtPrefix(env.toRemote(p)).Has(r) || r == env.toRemote(q')
    case TrashLocal(p) => AtPrefix(env.toRemote(p)).Has(r) || r == env.toRemote(TrashPath(p))
    case Copy(_, q') => r == env.toRemote(q')
    case _ => false
  }

  /** A write whose path nothing later among `ops` writes, moves or removes. */
  predicate LastPut(env: Env, ops: seq<QueuedOp>, i: nat) {
    && i < |ops| && IsWrite(ops[i])
    && forall j | i < j < |ops| :: !Displaces(env, ops[j], env.toRemote(ops[i].path))
  }

  lemma {:induction false} ForgetLookup(env: Env, cache: Cache, q: QueuedOp, r: string)
    requires Distinct(cache) && !IsWrite(q) && !q.Append? && !q.AppendBinary?
    ensures Distinct(Forget(env, cache, Replayed(env, q)))
    ensures Lookup(Forget(env, cache, Replayed(env, q)), r) == if Displaces(env, q, r) then None else Lookup(cache, r)
  {
    match q
    case Remove(p) => ForgetOne(cache, Only(env.toRemote(p)), r);
    case Rmdir(p, _) => ForgetOne(cache, AtPrefix(env.toRemote(p)), r);
    case Rename(p, q') => ForgetTwo(cache, env.toRemote(p), env.toRemote(q'), r);
    case TrashLocal(p) => ForgetTwo(cache, env.toRemote(p), env.toRemote(TrashPath(p)), r);
    case Copy(_, q') => ForgetOne(cache, Only(env.toRemote(q')), r);
    case _ =>
  }

  lemma {:induction false} PutEntry(env: Env, cache: Cache, at: string, data: Bytes, r: string)
    requires Distinct(cache)
    ensures var c := PutBytes(env, cache, at, data, 0);
            && Distinct(c)
            && (Lookup(c, r).Some? ==> if r == at then Lookup(c, r).value.value.data == data else Lookup(c, r) == Lookup(cache, r))
  {
    PutProperties(cache, Entry(at, Cached(data, 0), |data|), env.cap, env.cap);
  }

  lemma LastPutSnoc(env: Env, front: seq<QueuedOp>, q: QueuedOp, i: nat)
    ensures IsWrite(q) ==> LastPut(env, front + [q], |front|)
    ensures LastPut(env, front, i) && !Displaces(env, q, env.toRemote(front[i].path)) ==> LastPut(env, front + [q], i)
  {
  }

  /** An entry of the rebuilt cache holds the content of the last write to its path. */
  lemma {:induction false} RebuiltEntry(env: Env, ops: seq<QueuedOp>, r: string) returns (i: nat)
    requires NoAppends(ops)
    ensures Distinct(Rebuilt(env, ops))
    ensures Lookup(Rebuilt(env, ops), r).Some? ==> EntryFrom(env, ops, r, i)
  {
    i := 0;
    if ops != [] {
      var front, q := ops[..|ops| - 1], ops[|ops| - 1];
      assert ops == front + [q];
      i := RebuiltEntry(env, front, r);
      i := EntryAfter(env, front, q, r, i);
    }
  }

  ghost predicate EntryFrom(env: Env, ops: seq<QueuedOp>, r: string, i: nat)
    requires Lookup(Rebuilt(env, ops), r).Some?
  {
    && LastPut(env, ops, i) && env.toRemote(ops[i].path) == r
    && Lookup(Rebuilt(env, ops), r).value.value.data == ops[i].content
  }

  lemma EntryAfter(env: Env, front: seq<QueuedOp>, q: QueuedOp, r: string, i: nat) returns (j: nat)
    requires !q.Append? && !q.AppendBinary? && Distinct(Rebuilt(env, front))
    requires Lookup(Rebuilt(env, front), r).Some? ==> EntryFrom(env, front, r, i)
    ensures Distinct(Rebuilt(env, front + [q]))
    ensures Lookup(Rebuilt(env, front + [q]), r).Some? ==> EntryFrom(env, front + [q], r, j)
  {
    var before := Rebuilt(env, front);
    assert (front + [q])[..|front|] == front;
    LastPutSnoc(env, front, q, i);
    j := i;
    if IsWrite(q) {
      PutEntry(env, before, env.toRemote(q.path), q.content, r);
      if env.toRemote(q.path) == r { j := |front|; }
    } else {
      ForgetLookup(env, before, q, r);
    }
  }

  lemma LastPutUnique(env: Env, ops: seq<QueuedOp>, i: nat, j: nat)
    requires LastPut(env, ops, i) && LastPut(env, ops, j) && env.toRemote(ops[i].path) == env.toRemote(ops[j].path)
    ensures i == j
  {
    var r := env.toRemote(ops[i].path);
    assert Displaces(env, ops[i], r) && Displaces(env, ops[j], r);
  }

  // ---------------------------------------------------------------- interrupted drains

  /** The user's final tree `v` has at its path what the `i`-th operation wrote. */
  ghost predicate StillThere(env: Env, q: QueuedOp, v: Tree)
    requires IsWrite(q)
  {
    env.toRemote(q.path) in v && v[env.toRemote(q.path)] == File(q.content)
  }

  /** Replayed writes whose entry has not been pushed out; this depends on the queue and the cap alone. */
  predicate LeavesEntry(env: Env, ops: seq<QueuedOp>, i: nat) {
    LastPut(env, ops, i) && Lookup(Rebuilt(env, ops), env.toRemote(ops[i].path)).Some?
  }

  /**
   A drain cut off after any number of operations. The rest still replays to the same tree. The cache
   tells the truth about the user's files if and only if every write replayed so far that left an entry
   is also the final content of its path.
   */
  lemma {:induction false} InterruptedDrain(env: Env, cache: Cache, t: Tree, queue: seq<QueuedOp>, v: Tree, k: nat, hosts: nat -> Host)
    requires NoAppends(queue) && k <= |queue|
    requires ReplayAll(env, t, queue) == Effect(v, true) && Agrees(cache, v)
    ensures var l := Drain(env, cache, t, queue[..k], hosts);
            && l.ok && ReplayAll(env, l.tree, queue[k..]) == Effect(v, true)
            && (Agrees(l.cache, v) <==>
                forall i | 0 <= i < k && LeavesEntry(env, queue[..k], i) :: StillThere(env, queue[i], v))
  {
    var ops := queue[..k];
    assert queue == ops + queue[k..];
    ReplayConcat(env, t, ops, queue[k..]);
    assert cache + [] == cache;
    DrainIs(env, cache, t, ops, hosts);
    var older, newer := OldAndNewAfter(env, cache, [], cache, cache, [], ops, hosts);
    assert [] + ops == ops;
    CutCache(env, cache, ops, Drain(env, cache, t, ops, hosts).cache, older, newer, v);
    assert forall i | 0 <= i < k :: ops[i] == queue[i];
  }

  lemma CutCache(env: Env, was: Cache, ops: seq<QueuedOp>, cache: Cache, older: Cache, newer: Cache, v: Tree)
    requires Agrees(was, v) && NoAppends(ops) && OldAndNew(env, was, ops, cache, older, newer)
    ensures Agrees(cache, v) <==> forall i | 0 <= i < |ops| && LeavesEntry(env, ops, i) :: StillThere(env, ops[i], v)
  {
    forall r ensures AgreesAt(cache, v, r) <==>
                     forall i | 0 <= i < |ops| && LeavesEntry(env, ops, i) && env.toRemote(ops[i].path) == r :: StillThere(env, ops[i], v)
    {
      CutCacheAt(env, was, ops, cache, older, newer, v, r);
    }
    if Agrees(cache, v) {
      forall i | 0 <= i < |ops| && LeavesEntry(env, ops, i) ensures StillThere(env, ops[i], v) {
        assert AgreesAt(cache, v, env.toRemote(ops[i].path));
      }
    }
  }

  lemma CutCacheAt(env: Env, was: Cache, ops: seq<QueuedOp>, cache: Cache, older: Cache, newer: Cache, v: Tree, r: string)
    requires Agrees(was, v) && NoAppends(ops) && OldAndNew(env, was, ops, cache, older, newer)
    ensures AgreesAt(cache, v, r) <==>
            forall i | 0 <= i < |ops| && LeavesEntry(env, ops, i) && env.toRemote(ops[i].path) == r :: StillThere(env, ops[i], v)
  {
    DistinctParts(older, newer, r);
    BlankLookup(newer, r);
    assert AgreesAt(was, v, r);
    var i := RebuiltEntry(env, ops, r);
    if Lookup(Rebuilt(env, ops), r).Some? {
      assert LeavesEntry(env, ops, i);
      forall j | 0 <= j < |ops| && LeavesEntry(env, ops, j) && env.toRemote(ops[j].path) == r ensures j == i {
        LastPutUnique(env, ops, i, j);
      }
    }
  }

  /** Cut after one operation: a replayed write that fits the cache must be the final content of its path. */
  lemma {:induction false} CutAfterOne(env: Env, cache: Cache, t: Tree, queue: seq<QueuedOp>, v: Tree, hosts: nat -> Host)
    requires NoAppends(queue) && queue != []
    requires ReplayAll(env, t, queue) == Effect(v, true) && Agrees(cache, v)
    ensures Agrees(Drain(env, cache, t, queue[..1], hosts).cache, v)
            <==> (IsWrite(queue[0]) && |queue[0].content| <= env.cap ==> StillThere(env, queue[0], v))
  {
    InterruptedDrain(env, cache, t, queue, v, 1, hosts);
    if IsWrite(queue[0]) { RebuiltOne(env, queue[..1]); }
    assert LeavesEntry(env, queue[..1], 0) <==> IsWrite(queue[0]) && |queue[0].content| <= env.cap;
  }

  lemma {:induction false} RebuiltOne(env: Env, ops: seq<QueuedOp>)
    requires |ops| == 1 && IsWrite(ops[0])
    ensures Lookup(Rebuilt(env, ops), env.toRemote(ops[0].path)).Some? <==> |ops[0].content| <= env.cap
  {
    var e := Entry(env.toRemote(ops[0].path), Cached(ops[0].content, 0), |ops[0].content|);
    assert ops[..0] == [] && Rebuilt(env, ops) == AfterReplay(env, [], ops[0], 0);
    assert Without<Cached>([], Only(e.key)) + [e] == [e] && [e][1..] == [] && Total([e]) == e.size;
    assert Evict<Cached>([], env.cap) == [] && Evict([e], env.cap) == if e.size > env.cap then [] else [e];
    assert Rebuilt(env, ops) == Evict([e], env.cap);
  }

  // ---------------------------------------------------------------- when nothing is pushed out

  function Written(ops: seq<QueuedOp>): nat {
    if ops == [] then 0
    else Written(ops[..|ops| - 1]) + if IsWrite(ops[|ops| - 1]) then |ops[|ops| - 1].content| else 0
  }

  /** If all that is written fits the cache at once, every last write leaves its entry. */
  lemma {:induction false} AllFit(env: Env, ops: seq<QueuedOp>)
    requires NoAppends(ops) && Written(ops) <= env.cap
    ensures Total(Rebuilt(env, ops)) <= Written(ops)
    ensures forall i: nat :: LeavesEntry(env, ops, i) <==> LastPut(env, ops, i)
  {
    if ops != [] {
      var front, q := ops[..|ops| - 1], ops[|ops| - 1];
      var before := Rebuilt(env, front);
      AllFit(env, front);
      var _ := RebuiltEntry(env, front, "");
      AllFitStep(env, before, q);
      forall i: nat | LastPut(env, ops, i) ensures LeavesEntry(env, ops, i) {
        var r := env.toRemote(ops[i].path);
        if i < |front| {
          assert LastPut(env, front, i) && LeavesEntry(env, front, i) && ops[|ops| - 1] == q;
        }
        FitLookup(env, before, q, r);
      }
    }
  }

  lemma {:induction false} AllFitStep(env: Env, cache: Cache, q: QueuedOp)
    requires Distinct(cache) && !q.Append? && !q.AppendBinary?
    requires IsWrite(q) ==> Total(cache) + |q.content| <= env.cap
    ensures Total(AfterReplay(env, cache, q, 0)) <= Total(cache) + if IsWrite(q) then |q.content| else 0
  {
    if IsWrite(q) {
      var e := Entry(env.toRemote(q.path), Cached(q.content, 0), |q.content|);
      RemoveOneTotal(cache, e.key);
      TotalConcat(Without(cache, Only(e.key)), [e]);
    } else {
      ForgetTotal(env, cache, Replayed(env, q));
    }
  }

  lemma {:induction false} ForgetTotal(env: Env, cache: Cache, e: Edit)
    ensures Total(Forget(env, cache, e)) <= Total(cache)
  {
    match e
    case Remove(p) => WithoutTotal(cache, Only(env.toRemote(p)));
    case Rmdir(p, _) => WithoutTotal(cache, AtPrefix(env.toRemote(p)));
    case Rename(p, q) =>
      WithoutTotal(cache, AtPrefix(env.toRemote(p)));
      WithoutTotal(Without(cache, AtPrefix(env.toRemote(p))), Only(env.toRemote(q)));
    case TrashLocal(p) =>
      WithoutTotal(cache, AtPrefix(env.toRemote(p)));
      WithoutTotal(Without(cache, AtPrefix(env.toRemote(p))), Only(env.toRemote(TrashPath(p))));
    case Copy(_, q) => WithoutTotal(cache, Only(env.toRemote(q)));
    case _ =>
  }

  lemma {:induction false} FitLookup(env: Env, cache: Cache, q: QueuedOp, r: string)
    requires Distinct(cache) && !q.Append? && !q.AppendBinary?
    requires IsWrite(q) ==> Total(cache) + |q.content| <= env.cap
    ensures IsWrite(q) && env.toRemote(q.path) == r ==> Lookup(AfterReplay(env, cache, q, 0), r).Some?
    ensures !Displaces(env, q, r) ==> Lookup(AfterReplay(env, cache, q, 0), r) == Lookup(cache, r)
  {
    if IsWrite(q) {
      var e := Entry(env.toRemote(q.path), Cached(q.content, 0), |q.content|);
      RemoveOneTotal(cache, e.key);
      PutProperties(cache, e, env.cap, env.cap);
      LookupConcat(Without(cache, Only(e.key)), [e], r);
      LookupWithout(cache, Only(e.key), r);
    } else {
      ForgetLookup(env, cache, q, r);
    }
  }

  /** The check a caller can make beforehand: nothing later in the queue touches that path. */
  lemma {:induction false} UntouchedSurvives(env: Env, t: Tree, rest: seq<QueuedOp>, r: string)
    requires WellFormed(t) && NoAppends(rest) && ReplayAll(env, t, rest).ok
    requires forall i | 0 <= i < |rest| :: !Touches(env, Replayed(env, rest[i]), r)
    requires r in t && t[r].File?
    ensures r in ReplayAll(env, t, rest).tree && ReplayAll(env, t, rest).tree[r] == t[r]
    decreases |rest|
  {
    if rest != [] {
      var e := Replayed(env, rest[0]);
      ReplayedTree(env, t, rest[0]);
      EditKeepsOthers(env, t, e, r);
      UntouchedSurvives(env, OnlineTree(env, t, e).tree, rest[1..], r);
    }
  }

  lemma EditKeepsOthers(env: Env, t: Tree, e: Edit, r: string)
    requires WellFormed(t) && OnlineTree(env, t, e).ok && !Touches(env, e, r)
    requires r in t && t[r].File?
    ensures var t' := OnlineTree(env, t, e).tree;
            WellFormed(t') && r in t' && t'[r] == t[r]
  {
    match e
    case Mkdir(p) => MkdirpProperties(t, env.toRemote(p));
    case Remove(p) => RemoveProperties(t, env.toRemote(p), false);
    case Rmdir(p, recursive) => RemoveProperties(t, env.toRemote(p), recursive);
    case Rename(p, q) => RenameTreeProperties(t, env.toRemote(p), env.toRemote(q));
    case TrashLocal(p) => RenameTreeProperties(t, env.toRemote(p), env.toRemote(TrashPath(p)));
    case Copy(p, q) => CopyTreeProperties(t, env.toRemote(p), env.toRemote(q));
    case _ =>
      var data := NewContent(env, ReadTree(t, env.toRemote(e.path)), e).value;
      PlaceProperties(t, env.toRemote(e.path), data);
  }

  /**
   What goes wrong otherwise: two queued writes to one path, the session dropping after the first is
   replayed. If the cache has room for the first content, the next offline read of the path shows it
   instead of the user's latest, and an offline append queued then builds on it.
   */
  lemma {:induction false} InterruptedDrainShowsOldContent(env: Env, cache: Cache, t: Tree, p: string, x: Bytes, y: Bytes, h: Host)
    requires WellFormed(t) && x != y && |x| <= env.cap
    requires Place(t, env.toRemote(p), x).ok
    requires cache == [Entry(env.toRemote(p), Cached(y, h.now), |y|)]
    ensures var r := env.toRemote(p);
            var queue := [QueuedOp.WriteBinary(p, x, None), QueuedOp.WriteBinary(p, y, None)];
            var v := ReplayAll(env, t, queue);
            var l := OnlineEdit(env, cache, t, Replayed(env, queue[0]), h);
            && v.ok && r in v.tree && v.tree[r] == File(y) && l.ok
            && OfflineRead(env, Session(l.cache, queue[1..]), p).1 == Some(x)
            && forall more: Bytes ::
                 Queued(env, l.cache, Edit.AppendBinary(p, more)) == Some(QueuedOp.WriteBinary(p, x + more, Some(h.mtime)))
  {
    var r := env.toRemote(p);
    var q1, q2 := QueuedOp.WriteBinary(p, x, None), QueuedOp.WriteBinary(p, y, None);
    var queue := [q1, q2];
    PlaceProperties(t, r, x);
    var t1 := Place(t, r, x).tree;
    PlaceAgain(t, r, x, y);
    PlaceProperties(t1, r, y);
    assert queue[1..] == [q2] && [q2][1..] == [];
    assert ReplayAll(env, Place(t1, r, y).tree, []) == Effect(Place(t1, r, y).tree, true);
    var l := OnlineEdit(env, cache, t, Replayed(env, q1), h);
    assert Without(cache, Only(r)) == [];
    PutProperties(cache, Entry(r, Cached(x, h.mtime), |x|), env.cap, env.cap);
    assert Put(cache, Entry(r, Cached(x, h.mtime), |x|), env.cap, env.cap) == [] + [Entry(r, Cached(x, h.mtime), |x|)];
    assert Peek(l.cache, r) == Some(Cached(x, h.mtime));
  }

  lemma PlaceAgain(t: Tree, r: string, x: Bytes, y: Bytes)
    requires WellFormed(t) && Place(t, r, x).ok
    ensures Place(Place(t, r, x).tree, r, y).ok
  {
    PlaceProperties(t, r, x);
    var t1 := Place(t, r, x).tree;
    var parent := ParentDirRemote(r);
    MkdirpProperties(t, parent);
    var made := Mkdirp(t, parent).tree;
    assert t1 == made[r := File(x)];
    var chain := if IsRoot(parent) then {} else Ancestors(parent) + {parent};
    forall q | q in chain ensures q in t1 && t1[q].Dir? {
      assert q in made && made[q].Dir?;
      assert q != r by { ChainShorter(r, q); }
    }
  }

  lemma ChainShorter(r: string, q: string)
    requires !IsRoot(ParentDirRemote(r)) && q in Ancestors(ParentDirRemote(r)) + {ParentDirRemote(r)}
    ensures |q| < |r|
  {
    if q in Ancestors(ParentDirRemote(r)) { AncestorShorter(ParentDirRemote(r), q); }
  }

  // ---------------------------------------------------------------- edits made while a drain is under way

  ghost predicate HasFile(t: Tree, r: string, data: Bytes) {
    r in t && t[r] == File(data)
  }

  /** The operation may put a file at `r`, or take one away from there. */
  predicate Affects(env: Env, q: QueuedOp, r: string) {
    match q
    case Mkdir(_) => false
    case Remove(p) => r == env.toRemote(p)
    case Rmdir(p, _) => AtOrUnder(r, env.toRemote(p))
    case Rename(p, q') => AtOrUnder(r, env.toRemote(p)) || AtOrUnder(r, env.toRemote(q'))
    case TrashLocal(p) => AtOrUnder(r, env.toRemote(p)) || AtOrUnder(r, env.toRemote(TrashPath(p)))
    case Copy(_, q') => r == env.toRemote(q')
    case _ => r == env.toRemote(q.path)
  }

  lemma RenameElsewhere(t: Tree, src: string, dst: string, r: string, data: Bytes)
    requires WellFormed(t) && RenameTree(t, src, dst).ok && !AtOrUnder(r, src) && !AtOrUnder(r, dst)
    ensures HasFile(RenameTree(t, src, dst).tree, r, data) <==> HasFile(t, r, data)
  {
    var made := Mkdirp(t, ParentDirRemote(dst)).tree;
    MkdirpProperties(t, ParentDirRemote(dst));
    assert r in Targets(made, src, dst) ==> BackIn(r, src, dst, Subtree(made, src));
  }

  lemma PlaceElsewhere(t: Tree, p: string, x: Bytes, r: string, data: Bytes)
    requires WellFormed(t) && Place(t, p, x).ok && r != p
    ensures HasFile(Place(t, p, x).tree, r, data) <==> HasFile(t, r, data)
  {
    MkdirpProperties(t, ParentDirRemote(p));
  }

  lemma UnaffectedStays(env: Env, t: Tree, q: QueuedOp, r: string, data: Bytes)
    requires WellFormed(t) && !q.Append? && !q.AppendBinary? && ReplayTree(env, t, q).ok && !Affects(env, q, r)
    ensures HasFile(ReplayTree(env, t, q).tree, r, data) <==> HasFile(t, r, data)
  {
    match q
    case Write(p, x, _) => PlaceElsewhere(t, env.toRemote(p), x, r, data);
    case WriteBinary(p, x, _) => PlaceElsewhere(t, env.toRemote(p), x, r, data);
    case Mkdir(p) => MkdirpProperties(t, env.toRemote(p));
    case Remove(_) =>
    case Rmdir(_, _) =>
    case Rename(p, q') => RenameElsewhere(t, env.toRemote(p), env.toRemote(q'), r, data);
    case TrashLocal(p) => RenameElsewhere(t, env.toRemote(p), env.toRemote(TrashPath(p)), r, data);
    case Copy(p, q') =>
      CopyIsPlace(t, env.toRemote(p), env.toRemote(q'));
      PlaceElsewhere(t, env.toRemote(q'), t[env.toRemote(p)].data, r, data);
  }

  lemma {:induction false} ReplayedWellFormed(env: Env, t: Tree, ops: seq<QueuedOp>)
    requires WellFormed(t) && NoAppends(ops) && ReplayAll(env, t, ops).ok
    ensures WellFormed(ReplayAll(env, t, ops).tree)
  {
    DrainReachesVirtual(env, [], t, ops, ReplayAll(env, t, ops).tree, n => Host(false, 0, false, 0));
  }

  lemma {:induction false} UnaffectedRun(env: Env, t: Tree, rest: seq<QueuedOp>, r: string, data: Bytes)
    requires WellFormed(t) && NoAppends(rest) && ReplayAll(env, t, rest).ok
    requires forall i | 0 <= i < |rest| :: !Affects(env, rest[i], r)
    ensures HasFile(ReplayAll(env, t, rest).tree, r, data) <==> HasFile(t, r, data)
    decreases |rest|
  {
    if rest != [] {
      UnaffectedStays(env, t, rest[0], r, data);
      assert rest == [rest[0]] + rest[1..];
      ReplayConcat(env, t, [rest[0]], rest[1..]);
      ReplayedWellFormed(env, t, [rest[0]]);
      OneReplayed(env, t, rest[0]);
      UnaffectedRun(env, ReplayTree(env, t, rest[0]).tree, rest[1..], r, data);
    }
  }

  lemma {:induction false} OneReplayed(env: Env, t: Tree, q: QueuedOp)
    ensures ReplayAll(env, t, [q]) == ReplayTree(env, t, q)
  {
    var first := ReplayTree(env, t, q);
    assert [q][1..] == [] && ReplayAll(env, first.tree, []) == Effect(first.tree, true);
  }

  /** What the user wrote at `r` while the rest of the queue was still to be replayed is there in the end. */
  ghost predicate EditSurvives(env: Env, t: Tree, rest: seq<QueuedOp>, r: string, data: Bytes) {
    HasFile(ReplayAll(env, Place(t, r, data).tree, rest).tree, r, data)
  }

  /** The last of the remaining operations that may change what is at `r`. */
  ghost predicate LastAffecting(env: Env, rest: seq<QueuedOp>, r: string, j: nat) {
    j < |rest| && Affects(env, rest[j], r) && forall i | j < i < |rest| :: !Affects(env, rest[i], r)
  }

  /**
   An edit between two replayed operations, made on the tree `t` the replay has reached. With nothing in
   the rest of the queue about its path it survives. Otherwise the last operation about that path decides:
   the edit survives if and only if that one leaves the same content there, a queued write if and only if
   it has that content, a queued removal never.
   */
  lemma {:induction false} EditDuringDrain(env: Env, t: Tree, rest: seq<QueuedOp>, r: string, data: Bytes)
    requires WellFormed(t) && NoAppends(rest) && Place(t, r, data).ok && ReplayAll(env, Place(t, r, data).tree, rest).ok
    ensures (forall i | 0 <= i < |rest| :: !Affects(env, rest[i], r)) ==> EditSurvives(env, t, rest, r, data)
    ensures forall j: nat | LastAffecting(env, rest, r, j) ::
              && (EditSurvives(env, t, rest, r, data) <==> EditSurvives(env, t, rest[..j + 1], r, data))
              && (IsWrite(rest[j]) ==> (EditSurvives(env, t, rest, r, data) <==> rest[j].content == data))
              && (rest[j].Remove? || rest[j].Rmdir? ==> !EditSurvives(env, t, rest, r, data))
  {
    PlaceProperties(t, r, data);
    var edited := Place(t, r, data).tree;
    if forall i | 0 <= i < |rest| :: !Affects(env, rest[i], r) {
      UnaffectedRun(env, edited, rest, r, data);
    }
    forall j: nat | LastAffecting(env, rest, r, j)
      ensures EditSurvives(env, t, rest, r, data) <==> EditSurvives(env, t, rest[..j + 1], r, data)
      ensures IsWrite(rest[j]) ==> (EditSurvives(env, t, rest, r, data) <==> rest[j].content == data)
      ensures rest[j].Remove? || rest[j].Rmdir? ==> !EditSurvives(env, t, rest, r, data)
    {
      LastDecides(env, edited, rest, r, data, j);
    }
  }

  lemma {:induction false} LastDecides(env: Env, edited: Tree, rest: seq<QueuedOp>, r: string, data: Bytes, j: nat)
    requires WellFormed(edited) && NoAppends(rest) && ReplayAll(env, edited, rest).ok && LastAffecting(env, rest, r, j)
    ensures HasFile(ReplayAll(env, edited, rest).tree, r, data) <==> HasFile(ReplayAll(env, edited, rest[..j + 1]).tree, r, data)
    ensures IsWrite(rest[j]) ==> (HasFile(ReplayAll(env, edited, rest).tree, r, data) <==> rest[j].content == data)
    ensures rest[j].Remove? || rest[j].Rmdir? ==> !HasFile(ReplayAll(env, edited, rest).tree, r, data)
  {
    var upTo := SplitAt(rest, j);
    DecidedBy(env, edited, rest[..j], rest[j], rest[j + 1..], r, data);
  }

  lemma SplitAt(ops: seq<QueuedOp>, j: nat) returns (upTo: seq<QueuedOp>)
    requires j < |ops|
    ensures upTo == ops[..j] + [ops[j]] && upTo == ops[..j + 1] && ops == upTo + ops[j + 1..]
  {
    upTo := ops[..j + 1];
  }

  lemma {:induction false} DecidedBy(env: Env, edited: Tree, a: seq<QueuedOp>, q: QueuedOp, b: seq<QueuedOp>, r: string, data: Bytes)
    requires WellFormed(edited) && NoAppends(a) && NoAppends(a + [q]) && NoAppends(b) && ReplayAll(env, edited, a + [q] + b).ok
    requires Affects(env, q, r) && forall i | 0 <= i < |b| :: !Affects(env, b[i], r)
    ensures var survives := HasFile(ReplayAll(env, edited, a + [q] + b).tree, r, data);
            && (survives <==> HasFile(ReplayAll(env, edited, a + [q]).tree, r, data))
            && (IsWrite(q) ==> (survives <==> q.content == data))
            && (q.Remove? || q.Rmdir? ==> !survives)
  {
    AroundOne(env, edited, a, q, b);
    UnaffectedRun(env, ReplayAll(env, edited, a + [q]).tree, b, r, data);
    AffectedByLast(env, ReplayAll(env, edited, a).tree, q, r, data);
  }

  /** A replay seen from one of its operations. */
  lemma {:induction false} AroundOne(env: Env, t: Tree, a: seq<QueuedOp>, q: QueuedOp, b: seq<QueuedOp>)
    requires WellFormed(t) && NoAppends(a) && NoAppends(a + [q]) && ReplayAll(env, t, a + [q] + b).ok
    ensures var before, upTo := ReplayAll(env, t, a), ReplayAll(env, t, a + [q]);
            && before.ok && upTo.ok && WellFormed(before.tree) && WellFormed(upTo.tree)
            && ReplayTree(env, before.tree, q) == upTo && ReplayAll(env, upTo.tree, b) == ReplayAll(env, t, a + [q] + b)
  {
    TwoParts(env, t, a + [q], b);
    TwoParts(env, t, a, [q]);
    OneReplayed(env, ReplayAll(env, t, a).tree, q);
  }

  lemma {:induction false} TwoParts(env: Env, t: Tree, a: seq<QueuedOp>, b: seq<QueuedOp>)
    requires WellFormed(t) && NoAppends(a) && ReplayAll(env, t, a + b).ok
    ensures ReplayAll(env, t, a).ok && WellFormed(ReplayAll(env, t, a).tree)
    ensures ReplayAll(env, ReplayAll(env, t, a).tree, b) == ReplayAll(env, t, a + b)
  {
    ReplayConcat(env, t, a, b);
    ReplayedWellFormed(env, t, a);
  }

  lemma AffectedByLast(env: Env, t: Tree, q: QueuedOp, r: string, data: Bytes)
    requires WellFormed(t) && Affects(env, q, r) && ReplayTree(env, t, q).ok
    ensures IsWrite(q) ==> (HasFile(ReplayTree(env, t, q).tree, r, data) <==> q.content == data)
    ensures q.Remove? || q.Rmdir? ==> !HasFile(ReplayTree(env, t, q).tree, r, data)
  {
    if IsWrite(q) { PlaceProperties(t, r, q.content); }
  }

  // ---------------------------------------------------------------- replayed once more

  /** The operations that may take effect twice. */
  predicate Repeatable(env: Env, q: QueuedOp) {
    match q
    case Remove(_) => false
    case Rmdir(_, _) => false
    case Rename(p, q') => env.toRemote(p) == env.toRemote(q')
    case TrashLocal(p) => env.toRemote(p) == env.toRemote(TrashPath(p))
    case _ => true
  }

  lemma MkdirpAgain(t: Tree, p: string)
    requires WellFormed(t) && Mkdirp(t, p).ok
    ensures Mkdirp(Mkdirp(t, p).tree, p) == Effect(Mkdirp(t, p).tree, true)
  {
    MkdirpProperties(t, p);
  }

  lemma PlaceTwice(t: Tree, r: string, x: Bytes)
    requires WellFormed(t) && Place(t, r, x).ok
    ensures Place(Place(t, r, x).tree, r, x) == Place(t, r, x)
  {
    var t1, parent := Place(t, r, x).tree, ParentDirRemote(r);
    PlaceAgain(t, r, x, x);
    PlaceProperties(t, r, x);
    ParentsThere(t, r, x);
  }

  /** After a write its parents are there to be made again. */
  lemma ParentsThere(t: Tree, r: string, x: Bytes)
    requires WellFormed(t) && Place(t, r, x).ok
    ensures Mkdirp(Place(t, r, x).tree, ParentDirRemote(r)).tree == Place(t, r, x).tree
  {
    var parent := ParentDirRemote(r);
    MkdirpProperties(t, parent);
    var chain := if IsRoot(parent) then {} else Ancestors(parent) + {parent};
    assert forall q | q in chain :: q in Place(t, r, x).tree;
  }

  lemma CopyIsPlace(t: Tree, src: string, dst: string)
    requires WellFormed(t) && CopyTree(t, src, dst).ok
    ensures src in t && t[src].File? && CopyTree(t, src, dst) == Place(t, dst, t[src].data)
  {
    MkdirpProperties(t, ParentDirRemote(dst));
  }

  lemma CopyTwice(t: Tree, src: string, dst: string)
    requires WellFormed(t) && CopyTree(t, src, dst).ok
    ensures CopyTree(CopyTree(t, src, dst).tree, src, dst) == CopyTree(t, src, dst)
  {
    CopyIsPlace(t, src, dst);
    var data := t[src].data;
    PlaceTwice(t, dst, data);
    PlaceProperties(t, dst, data);
    var t1 := Place(t, dst, data).tree;
    assert src in t1 && t1[src] == File(data);
    MkdirpProperties(t1, ParentDirRemote(dst));
  }

  /** A directory below which another place lies is never what a successful rename moves there. */
  lemma RenameTwice(t: Tree, src: string, dst: string)
    requires WellFormed(t) && RenameTree(t, src, dst).ok
    ensures RenameTree(RenameTree(t, src, dst).tree, src, dst) == Effect(RenameTree(t, src, dst).tree, src == dst)
  {
    var parent := ParentDirRemote(dst);
    var made, t1 := Mkdirp(t, parent).tree, RenameTree(t, src, dst).tree;
    MkdirpProperties(t, parent);
    MkdirpAgain(t, parent);
    if src != dst {
      MovedAway(made, src, dst);
      var chain := if IsRoot(parent) then {} else Ancestors(parent) + {parent};
      forall q | q in chain ensures q in t1 && t1[q].Dir? {
        ChainKept(made, src, dst, q);
      }
      assert Mkdirp(t1, parent) == Effect(t1, true);
    }
  }

  lemma MovedAway(t: Tree, src: string, dst: string)
    requires WellFormed(t) && RenameNode(t, src, dst).ok && src != dst
    ensures src !in RenameNode(t, src, dst).tree
  {
    if t[src].Dir? {
      TargetsAreFree(t, src, dst);
      assert src in Subtree(t, src);
    }
  }

  /** The parents of the new place survive the move. */
  lemma ChainKept(t: Tree, src: string, dst: string, q: string)
    requires WellFormed(t) && RenameNode(t, src, dst).ok && src != dst
    requires !IsRoot(ParentDirRemote(dst)) && q in Ancestors(ParentDirRemote(dst)) + {ParentDirRemote(dst)}
    requires q in t && t[q].Dir?
    ensures q in RenameNode(t, src, dst).tree && RenameNode(t, src, dst).tree[q].Dir?
  {
    ChainShorter(dst, q);
    UnderChain(dst, q);
    if t[src].Dir? {
      assert !AtOrUnder(q, src) by {
        if AtOrUnder(q, src) { AtOrUnderTransitive(dst, q, src); }
      }
      TargetsAreFree(t, src, dst);
    }
  }

  lemma UnderChain(r: string, q: string)
    requires !IsRoot(ParentDirRemote(r)) && q in Ancestors(ParentDirRemote(r)) + {ParentDirRemote(r)}
    ensures q in Ancestors(r) && AtOrUnder(r, q)
  {
    var parent := ParentDirRemote(r);
    assert parent in Ancestors(r);
    if q != parent { AncestorsTransitive(r, parent, q); }
    AncestorShorter(r, q);
  }

  lemma AtOrUnderTransitive(a: string, b: string, c: string)
    requires AtOrUnder(a, b) && AtOrUnder(b, c)
    ensures AtOrUnder(a, c)
  {
  }

  /**
   Exactly which operations may be replayed twice: a second replay changes nothing, and it succeeds if
   and only if the operation is a write, a directory creation, a copy, or a rename onto itself.
   */
  lemma ReplayTwice(env: Env, t: Tree, q: QueuedOp)
    requires WellFormed(t) && !q.Append? && !q.AppendBinary? && ReplayTree(env, t, q).ok
    ensures ReplayTree(env, ReplayTree(env, t, q).tree, q) == Effect(ReplayTree(env, t, q).tree, Repeatable(env, q))
  {
    match q
    case Write(p, content, _) => PlaceTwice(t, env.toRemote(p), content);
    case WriteBinary(p, content, _) => PlaceTwice(t, env.toRemote(p), content);
    case Mkdir(p) => MkdirpAgain(t, env.toRemote(p));
    case Remove(p) =>
    case Rmdir(p, _) => assert env.toRemote(p) in Subtree(t, env.toRemote(p));
    case Rename(p, q') => RenameTwice(t, env.toRemote(p), env.toRemote(q'));
    case Copy(p, q') => CopyTwice(t, env.toRemote(p), env.toRemote(q'));
    case TrashLocal(p) => RenameTwice(t, env.toRemote(p), env.toRemote(TrashPath(p)));
  }

  /**
   A crash, or a failed append, after an operation took effect and before its completion was recorded:
   the next drain starts with it again. While nobody else changes the tree, it reaches the user's tree if
   and only if the operation is repeatable; otherwise that drain and every later one stops there, changing
   nothing.
   */
  lemma {:induction false} CompletionLost(env: Env, t: Tree, queue: seq<QueuedOp>, v: Tree)
    requires WellFormed(t) && NoAppends(queue) && queue != [] && ReplayAll(env, t, queue) == Effect(v, true)
    ensures var t1 := ReplayTree(env, t, queue[0]).tree;
            ReplayAll(env, t1, queue) == if Repeatable(env, queue[0]) then Effect(v, true) else Effect(t1, false)
  {
    ReplayTwice(env, t, queue[0]);
  }

  /** If somebody does, a repeated removal takes what was put there since. */
  lemma RecreatedIsRemoved(env: Env, t: Tree, path: string, data: Bytes)
    requires WellFormed(t) && ReplayTree(env, t, QueuedOp.Remove(path)).ok
    requires Place(ReplayTree(env, t, QueuedOp.Remove(path)).tree, env.toRemote(path), data).ok
    ensures var again := ReplayTree(env, Place(ReplayTree(env, t, QueuedOp.Remove(path)).tree, env.toRemote(path), data).tree, QueuedOp.Remove(path));
            again.ok && env.toRemote(path) !in again.tree
  {
    RemoveProperties(t, env.toRemote(path), false);
    PlaceProperties(ReplayTree(env, t, QueuedOp.Remove(path)).tree, env.toRemote(path), data);
  }
}
