/**
 Offline editing refines online editing: whole runs, drains, and any number of
 connect / drop / drain cycles.
 */
module OfflineEqualsOnline {
  import opened Lru
  import opened RemoteTree
  import opened QueuedOps
  import opened OfflineEditing

  /** What the editor asks for: an edit, or a read of one file. */
  datatype Event = Do(edit: Edit, host: Host) | Look(path: string, host: Host)

  /** The reference: the same requests against the remote tree alone, with no cache and no queue. */
  datatype OnlineResult = OnlineResult(tree: Tree, ok: bool, shown: seq<ReadResult>)

  function OnlineStep(env: Env, t: Tree, event: Event): OnlineResult {
    match event
    case Do(e, _) => OnlineResult(OnlineTree(env, t, e).tree, OnlineTree(env, t, e).ok, [])
    case Look(p, _) => OnlineResult(t, true, [ReadTree(t, env.toRemote(p))])
  }

  function OnlineRun(env: Env, t: Tree, events: seq<Event>): OnlineResult
    decreases |events|
  {
    if events == [] then OnlineResult(t, true, [])
    else
      var step := OnlineStep(env, t, events[0]);
      if !step.ok then step
      else
        var rest := OnlineRun(env, step.tree, events[1..]);
        rest.(shown := step.shown + rest.shown)
  }

  // ------------------------------------------------------------ the offline side

  datatype OfflineResult = OfflineResult(session: Session, shown: seq<ReadResult>, accepted: seq<Event>)

  /** One request while reconnecting. A refused edit or an unserved read errors and leaves nothing queued. */
  function OfflineStep(env: Env, s: Session, event: Event): OfflineResult {
    match event
    case Do(e, h) =>
      var (s', taken) := OfflineEdit(env, s, e, h);
      OfflineResult(s', [], if taken then [event] else [])
    case Look(p, _) =>
      var (s', served) := OfflineRead(env, s, p);
      match served
      case None => OfflineResult(s', [], [])
      case Some(b) => OfflineResult(s', [Data(b)], [event])
  }

  function OfflineRun(env: Env, s: Session, events: seq<Event>): OfflineResult
    decreases |events|
  {
    if events == [] then OfflineResult(s, [], [])
    else
      var step := OfflineStep(env, s, events[0]);
      var rest := OfflineRun(env, step.session, events[1..]);
      OfflineResult(rest.session, step.shown + rest.shown, step.accepted + rest.accepted)
  }

  /** An accepted offline edit queues exactly what the edit would have done online. */
  lemma QueuedIsOnline(env: Env, cache: Cache, v: Tree, e: Edit)
    requires Agrees(cache, v) && Queued(env, cache, e).Some?
    ensures ReplayTree(env, v, Queued(env, cache, e).value) == OnlineTree(env, v, e)
    ensures Writes(e) ==>
              var q := Queued(env, cache, e).value;
              (q.Write? || q.WriteBinary?) && OnlineTree(env, v, e) == Place(v, env.toRemote(e.path), q.content)
  {
    if Writes(e) {
      QueuedWriteIsOnline(env, cache, v, e);
    } else {
      QueuedMutationIsOnline(env, cache, v, e);
    }
  }

  lemma QueuedMutationIsOnline(env: Env, cache: Cache, v: Tree, e: Edit)
    requires !Writes(e)
    ensures Queued(env, cache, e) == Some(MutationOf(e)) && ReplayTree(env, v, MutationOf(e)) == OnlineTree(env, v, e)
  {
    match e
    case TrashLocal(p) => assert OnlineTree(env, v, e) == OnlineTree(env, v, Edit.Rename(p, TrashPath(p)));
    case Mkdir(p) => assert e == Edit.Mkdir(p);
    case Remove(p) => assert e == Edit.Remove(p);
    case Rmdir(p, recursive) => assert e == Edit.Rmdir(p, recursive);
    case Rename(p, q) => assert e == Edit.Rename(p, q);
    case Copy(p, q) => assert e == Edit.Copy(p, q);
  }

  function MutationOf(e: Edit): QueuedOp
    requires !Writes(e)
  {
    match e
    case Mkdir(p) => QueuedOp.Mkdir(p)
    case Remove(p) => QueuedOp.Remove(p)
    case Rmdir(p, recursive) => QueuedOp.Rmdir(p, recursive)
    case Rename(p, q) => QueuedOp.Rename(p, q)
    case Copy(p, q) => QueuedOp.Copy(p, q)
    case TrashLocal(p) => QueuedOp.Rename(p, TrashPath(p))
  }

  lemma QueuedWriteIsOnline(env: Env, cache: Cache, v: Tree, e: Edit)
    requires Agrees(cache, v) && Writes(e) && Queued(env, cache, e).Some?
    ensures var q := Queued(env, cache, e).value;
            && (q.Write? || q.WriteBinary?) && q.path == e.path
            && NewContent(env, ReadTree(v, env.toRemote(e.path)), e) == Some(q.content)
  {
    var r := env.toRemote(e.path);
    assert AgreesAt(cache, v, r);
    var cached := Peek(cache, r);
    SameContent(env, if cached.Some? then Data(cached.value.data) else Failed, ReadTree(v, r), e);
  }

  /** A read the cache could serve says what the tree says; an edit that went ahead without one needs none. */
  lemma SameContent(env: Env, offline: ReadResult, online: ReadResult, e: Edit)
    requires NewContent(env, offline, e).Some? && (offline == Failed || offline == online)
    ensures NewContent(env, online, e) == NewContent(env, offline, e)
  {
  }

  ghost predicate Simulates(env: Env, remote: Tree, s: Session, v: Tree) {
    WellFormed(v) && Agrees(s.cache, v) && ReplayAll(env, remote, s.queue) == Effect(v, true) && NoAppends(s.queue)
  }

  ghost predicate NoAppends(queue: seq<QueuedOp>) {
    forall i | 0 <= i < |queue| :: !queue[i].Append? && !queue[i].AppendBinary?
  }

  lemma TouchAgrees(cache: Cache, t: Tree, r: string)
    requires Agrees(cache, t)
    ensures Agrees(Touch(cache, r), t)
  {
    TouchProperties(cache, r);
    forall k ensures AgreesAt(Touch(cache, r), t, k) { assert AgreesAt(cache, t, k); }
  }

  /** One edit while reconnecting: refused, or one step of the simulation. */
  lemma OfflineEditSimulates(env: Env, remote: Tree, s: Session, v: Tree, e: Edit, h: Host)
    requires Simulates(env, remote, s, v)
    requires OfflineEdit(env, s, e, h).1 ==> OnlineTree(env, v, e).ok
    ensures var (s', taken) := OfflineEdit(env, s, e, h);
            Simulates(env, remote, s', if taken then OnlineTree(env, v, e).tree else v)
  {
    if Reads(e) { TouchAgrees(s.cache, v, env.toRemote(e.path)); }
    var (s', taken) := OfflineEdit(env, s, e, h);
    if taken {
      var q := Queued(env, s.cache, e).value;
      var v' := OnlineTree(env, v, e).tree;
      QueuedIsOnline(env, s.cache, v, e);
      ReplayAppend(env, remote, s.queue, q);
      var read := if Reads(e) then Touch(s.cache, env.toRemote(e.path)) else s.cache;
      if Writes(e) {
        var r := env.toRemote(e.path);
        PlaceProperties(v, r, q.content);
        forall k | k != r ensures AgreesAt(read, v', k) { assert AgreesAt(read, v, k); }
        PutAgreesAll(env, read, v', r, q.content, h.now);
      } else {
        MutationKeeps(env, read, v, e, "");
        ForgetProperties(env, read, e, "");
        forall k ensures AgreesAt(Forget(env, read, e), v', k) {
          assert AgreesAt(read, v, k);
          MutationKeeps(env, read, v, e, k);
        }
      }
    }
  }

  lemma {:induction false} OfflineStepSimulates(env: Env, remote: Tree, s: Session, v: Tree, event: Event)
    requires Simulates(env, remote, s, v)
    requires OnlineRun(env, v, OfflineStep(env, s, event).accepted).ok
    ensures var off := OfflineStep(env, s, event);
            var on := OnlineRun(env, v, off.accepted);
            Simulates(env, remote, off.session, on.tree) && off.shown == on.shown
  {
    var off := OfflineStep(env, s, event);
    OneOnline(env, v, event);
    match event
    case Do(e, h) =>
      OfflineEditSimulates(env, remote, s, v, e, h);
    case Look(p, _) =>
      assert AgreesAt(s.cache, v, env.toRemote(p));
      TouchAgrees(s.cache, v, env.toRemote(p));
  }

  lemma {:induction false} OneOnline(env: Env, t: Tree, event: Event)
    ensures OnlineRun(env, t, [event]) == OnlineStep(env, t, event)
  {
    assert [event][1..] == [];
    var step := OnlineStep(env, t, event);
    assert OnlineRun(env, step.tree, []) == OnlineResult(step.tree, true, []);
    assert step.shown + [] == step.shown;
  }

  /**
   Main theorem. Whatever is asked for while reconnecting, if every accepted edit would have been
   valid online, then the queue replays without error to exactly the tree of the online run of the
   accepted requests, and every read that was served showed what that run shows.
   */
  lemma {:induction false} OfflineRunSimulates(env: Env, remote: Tree, s: Session, v: Tree, events: seq<Event>)
    requires Simulates(env, remote, s, v)
    requires OnlineRun(env, v, OfflineRun(env, s, events).accepted).ok
    ensures var off := OfflineRun(env, s, events);
            var on := OnlineRun(env, v, off.accepted);
            Simulates(env, remote, off.session, on.tree) && off.shown == on.shown
    decreases |events|
  {
    if events != [] {
      var step := OfflineStep(env, s, events[0]);
      var rest := OfflineRun(env, step.session, events[1..]);
      OnlineRunConcat(env, v, step.accepted, rest.accepted);
      OfflineStepSimulates(env, remote, s, v, events[0]);
      OfflineRunSimulates(env, remote, step.session, OnlineRun(env, v, step.accepted).tree, events[1..]);
    }
  }

  // ------------------------------------------------------------ draining

  /** The drain, entry by entry, through the live adapter and its cache. It stops at the first error. */
  function Drain(env: Env, cache: Cache, t: Tree, queue: seq<QueuedOp>, hosts: nat -> Host): Live
    decreases |queue|
  {
    if queue == [] then Live(cache, t, true)
    else
      var l := OnlineEdit(env, cache, t, Replayed(env, queue[0]), hosts(|queue|));
      if l.ok then Drain(env, l.cache, l.tree, queue[1..], hosts) else l
  }

  lemma ReplayedTree(env: Env, t: Tree, q: QueuedOp)
    requires !q.Append? && !q.AppendBinary?
    ensures ReplayTree(env, t, q) == OnlineTree(env, t, Replayed(env, q))
  {
  }

  lemma ReplayedIsOnline(env: Env, cache: Cache, t: Tree, q: QueuedOp, h: Host)
    requires !q.Append? && !q.AppendBinary?
    ensures var l := OnlineEdit(env, cache, t, Replayed(env, q), h);
            l.tree == ReplayTree(env, t, q).tree && l.ok == ReplayTree(env, t, q).ok
  {
  }

  /**
   A complete drain reaches the virtual remote and leaves a truthful cache, although half way
   through an entry may agree with only one of the two trees.
   */
  lemma {:induction false} DrainReachesVirtual(env: Env, cache: Cache, t: Tree, queue: seq<QueuedOp>, v: Tree, hosts: nat -> Host)
    requires WellFormed(t) && Distinct(cache) && NoAppends(queue)
    requires ReplayAll(env, t, queue) == Effect(v, true)
    requires forall k :: AgreesAt(cache, t, k) || AgreesAt(cache, v, k)
    ensures var l := Drain(env, cache, t, queue, hosts);
            l.ok && l.tree == v && Agrees(l.cache, v) && WellFormed(v)
    decreases |queue|
  {
    if queue != [] {
      var l := OnlineEdit(env, cache, t, Replayed(env, queue[0]), hosts(|queue|));
      DrainStep(env, cache, t, queue[0], v, hosts(|queue|));
      DrainReachesVirtual(env, l.cache, l.tree, queue[1..], v, hosts);
    }
  }

  lemma DrainStep(env: Env, cache: Cache, t: Tree, q: QueuedOp, v: Tree, h: Host)
    requires WellFormed(t) && Distinct(cache) && !q.Append? && !q.AppendBinary?
    requires ReplayTree(env, t, q).ok
    requires forall k :: AgreesAt(cache, t, k) || AgreesAt(cache, v, k)
    ensures var l := OnlineEdit(env, cache, t, Replayed(env, q), h);
            && l.ok && l.tree == ReplayTree(env, t, q).tree && WellFormed(l.tree) && Distinct(l.cache)
            && forall k :: AgreesAt(l.cache, l.tree, k) || AgreesAt(l.cache, v, k)
  {
    var l := OnlineEdit(env, cache, t, Replayed(env, q), h);
    ReplayedIsOnline(env, cache, t, q, h);
    OnlineEditKeeps(env, cache, t, Replayed(env, q), h, "");
    forall k ensures AgreesAt(l.cache, l.tree, k) || AgreesAt(l.cache, v, k) {
      OnlineEditKeeps(env, cache, t, Replayed(env, q), h, k);
      assert AgreesAt(cache, t, k) || AgreesAt(cache, v, k);
    }
  }

  /** Offline edits followed by a complete drain equal the online run: tree, reads, and cache. */
  lemma {:induction false} OfflineEqualsOnline(env: Env, cache: Cache, remote: Tree, events: seq<Event>, hosts: nat -> Host)
    requires WellFormed(remote) && Agrees(cache, remote)
    requires OnlineRun(env, remote, OfflineRun(env, Session(cache, []), events).accepted).ok
    ensures var off := OfflineRun(env, Session(cache, []), events);
            var on := OnlineRun(env, remote, off.accepted);
            var drained := Drain(env, off.session.cache, remote, off.session.queue, hosts);
            && off.shown == on.shown
            && drained.ok && drained.tree == on.tree
            && WellFormed(on.tree) && Agrees(drained.cache, on.tree)
  {
    var off := OfflineRun(env, Session(cache, []), events);
    OfflineRunSimulates(env, remote, Session(cache, []), remote, events);
    var v := OnlineRun(env, remote, off.accepted).tree;
    forall k ensures AgreesAt(off.session.cache, remote, k) || AgreesAt(off.session.cache, v, k) { }
    DrainReachesVirtual(env, off.session.cache, remote, off.session.queue, v, hosts);
  }

  // ------------------------------------------------------------ whole lifetimes

  datatype LiveResult = LiveResult(cache: Cache, tree: Tree, ok: bool, shown: seq<ReadResult>)

  /** Requests while connected, through the cache. */
  function LiveStep(env: Env, cache: Cache, t: Tree, event: Event): LiveResult {
    match event
    case Do(e, h) =>
      var l := OnlineEdit(env, cache, t, e, h);
      LiveResult(l.cache, l.tree, l.ok, [])
    case Look(p, h) =>
      var (c', res) := OnlineRead(env, cache, t, env.toRemote(p), h);
      LiveResult(c', t, true, [res])
  }

  function LiveRun(env: Env, cache: Cache, t: Tree, events: seq<Event>): LiveResult
    decreases |events|
  {
    if events == [] then LiveResult(cache, t, true, [])
    else
      var step := LiveStep(env, cache, t, events[0]);
      if !step.ok then step
      else
        var rest := LiveRun(env, step.cache, step.tree, events[1..]);
        rest.(shown := step.shown + rest.shown)
  }

  lemma LiveStepTrue(env: Env, cache: Cache, t: Tree, event: Event)
    requires WellFormed(t) && Agrees(cache, t) && OnlineStep(env, t, event).ok
    ensures var live, on := LiveStep(env, cache, t, event), OnlineStep(env, t, event);
            && live.ok && live.tree == on.tree && live.shown == on.shown
            && WellFormed(on.tree) && Agrees(live.cache, on.tree)
  {
    match event
    case Do(e, h) => OnlineEditTrue(env, cache, t, e, h);
    case Look(p, h) => OnlineReadTrue(env, cache, t, env.toRemote(p), h);
  }

  /** While connected, requests through the cache are requests against the tree. */
  lemma {:induction false} LiveEqualsOnline(env: Env, cache: Cache, t: Tree, events: seq<Event>)
    requires WellFormed(t) && Agrees(cache, t) && OnlineRun(env, t, events).ok
    ensures var live, on := LiveRun(env, cache, t, events), OnlineRun(env, t, events);
            && live.ok && live.tree == on.tree && live.shown == on.shown
            && WellFormed(on.tree) && Agrees(live.cache, on.tree)
    decreases |events|
  {
    if events != [] {
      LiveStepTrue(env, cache, t, events[0]);
      var step := LiveStep(env, cache, t, events[0]);
      LiveEqualsOnline(env, step.cache, step.tree, events[1..]);
    }
  }

  /** Connected for a while, then reconnecting for a while, then drained. */
  datatype Cycle = Cycle(online: seq<Event>, offline: seq<Event>, hosts: nat -> Host)

  function Lifetime(env: Env, cache: Cache, t: Tree, cycles: seq<Cycle>): LiveResult
    decreases |cycles|
  {
    if cycles == [] then LiveResult(cache, t, true, [])
    else
      var live := LiveRun(env, cache, t, cycles[0].online);
      if !live.ok then live
      else
        var off := OfflineRun(env, Session(live.cache, []), cycles[0].offline);
        var drained := Drain(env, off.session.cache, live.tree, off.session.queue, cycles[0].hosts);
        if !drained.ok then LiveResult(drained.cache, drained.tree, false, live.shown + off.shown)
        else
          var rest := Lifetime(env, drained.cache, drained.tree, cycles[1..]);
          rest.(shown := live.shown + off.shown + rest.shown)
  }

  /** Every request that was not refused, in order. */
  function Requests(env: Env, cache: Cache, t: Tree, cycles: seq<Cycle>): seq<Event>
    decreases |cycles|
  {
    if cycles == [] then []
    else
      var live := LiveRun(env, cache, t, cycles[0].online);
      var off := OfflineRun(env, Session(live.cache, []), cycles[0].offline);
      var drained := Drain(env, off.session.cache, live.tree, off.session.queue, cycles[0].hosts);
      cycles[0].online + off.accepted + Requests(env, drained.cache, drained.tree, cycles[1..])
  }

  lemma {:induction false} OnlineRunConcat(env: Env, t: Tree, x: seq<Event>, y: seq<Event>)
    requires OnlineRun(env, t, x + y).ok
    ensures var first := OnlineRun(env, t, x);
            var second := OnlineRun(env, first.tree, y);
            && first.ok && second.ok
            && OnlineRun(env, t, x + y) == second.(shown := first.shown + second.shown)
    decreases |x|
  {
    if x == [] {
      assert x + y == y;
      assert [] + OnlineRun(env, t, y).shown == OnlineRun(env, t, y).shown;
    } else {
      assert (x + y)[0] == x[0] && (x + y)[1..] == x[1..] + y;
      var step := OnlineStep(env, t, x[0]);
      OnlineRunConcat(env, step.tree, x[1..], y);
      var first := OnlineRun(env, step.tree, x[1..]);
      var second := OnlineRun(env, first.tree, y);
      assert step.shown + (first.shown + second.shown) == (step.shown + first.shown) + second.shown;
    }
  }

  /** Any number of drops and drains: the remote and everything shown are those of one online run. */
  lemma {:induction false} LifetimeEqualsOnline(env: Env, cache: Cache, t: Tree, cycles: seq<Cycle>)
    requires WellFormed(t) && Agrees(cache, t)
    requires OnlineRun(env, t, Requests(env, cache, t, cycles)).ok
    ensures var life, on := Lifetime(env, cache, t, cycles), OnlineRun(env, t, Requests(env, cache, t, cycles));
            && life.ok && life.tree == on.tree && life.shown == on.shown
            && WellFormed(on.tree) && Agrees(life.cache, on.tree)
    decreases |cycles|
  {
    if cycles != [] {
      var c := cycles[0];
      var live := LiveRun(env, cache, t, c.online);
      var off := OfflineRun(env, Session(live.cache, []), c.offline);
      var drained := Drain(env, off.session.cache, live.tree, off.session.queue, c.hosts);
      var rest := Requests(env, drained.cache, drained.tree, cycles[1..]);
      OnlineRunConcat(env, t, c.online + off.accepted, rest);
      OnlineRunConcat(env, t, c.online, off.accepted);
      LiveEqualsOnline(env, cache, t, c.online);
      OfflineEqualsOnline(env, live.cache, live.tree, c.offline, c.hosts);
      LifetimeEqualsOnline(env, drained.cache, drained.tree, cycles[1..]);
    }
  }
}
