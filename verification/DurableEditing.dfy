/**
 Offline editing on top of the log on disk: edits made while reconnecting, a crash at any point, the
 log reopened, and the drain of what it holds.
 */
module DurableEditing {
  import opened Lru
  import opened RemoteTree
  import opened QueuedOps
  import opened OfflineEditing
  import opened OfflineEqualsOnline
  import opened InterruptedDrain
  import Log = OfflineQueue

  datatype Durable = Durable(cache: Cache, store: Log.Store)

  datatype DurableResult = DurableResult(now: Durable, shown: seq<ReadResult>, accepted: seq<Event>)

  function Ops(pending: seq<Log.QueueEntry>): seq<QueuedOp> {
    if pending == [] then [] else [pending[0].op] + Ops(pending[1..])
  }

  lemma {:induction false} OpsSnoc(pending: seq<Log.QueueEntry>, e: Log.QueueEntry)
    ensures Ops(pending + [e]) == Ops(pending) + [e.op]
  {
    if pending == [] {
      assert [e][1..] == [];
    } else {
      OpsSnoc(pending[1..], e);
      assert (pending + [e])[1..] == pending[1..] + [e];
    }
  }

  /** The session the adapter sees: its cache and what is pending. */
  function View(d: Durable): Session {
    Session(d.cache, Ops(d.store.mem.pending))
  }

  /** The cap the queue enforces decides whether there is room. */
  predicate Fits(c: Log.Codec, maxBytes: nat, m: Log.Mem, q: QueuedOp, ts: int) {
    m.bytesUsed + Log.LineBytes(c, Log.QueueEntry(m.nextId, ts, q)) <= maxBytes
  }

  /** The request as the queue's state decides it. */
  function Decided(env: Env, c: Log.Codec, maxBytes: nat, d: Durable, event: Event): Event {
    match event
    case Look(_, _) => event
    case Do(e, h) =>
      match Queued(env, d.cache, e)
      case None => event
      case Some(q) => Do(e, h.(room := Fits(c, maxBytes, d.store.mem, q, h.now)))
  }

  /** What the request asks of the log. */
  function Logged(env: Env, d: Durable, event: Event): Option<Log.Request> {
    match event
    case Look(_, _) => None
    case Do(e, h) =>
      match Queued(env, d.cache, e)
      case None => None
      case Some(q) => Some(Log.Enqueue(q, h.now))
  }

  function DurableStep(env: Env, c: Log.Codec, maxBytes: nat, d: Durable, event: Event): DurableResult {
    var off := OfflineStep(env, View(d), Decided(env, c, maxBytes, d, event));
    var store := match Logged(env, d, event)
                 case None => d.store
                 case Some(request) => Log.After(c, maxBytes, d.store, request);
    DurableResult(Durable(off.session.cache, store), off.shown, off.accepted)
  }

  function DurableRun(env: Env, c: Log.Codec, maxBytes: nat, d: Durable, events: seq<Event>): DurableResult
    decreases |events|
  {
    if events == [] then DurableResult(d, [], [])
    else
      var step := DurableStep(env, c, maxBytes, d, events[0]);
      var rest := DurableRun(env, c, maxBytes, step.now, events[1..]);
      DurableResult(rest.now, step.shown + rest.shown, step.accepted + rest.accepted)
  }

  /** The log holds exactly what the session has queued. */
  ghost predicate Sound(env: Env, c: Log.Codec, remote: Tree, d: Durable, rs: seq<Log.Record>, v: Tree) {
    Log.Represents(c, d.store, rs) && Simulates(env, remote, View(d), v)
  }

  /** An enqueue leaves in memory what the session queues. */
  lemma EnqueuedIsQueued(c: Log.Codec, maxBytes: nat, st: Log.Store, rs: seq<Log.Record>, q: QueuedOp, ts: int)
    requires Log.Sound(c) && Log.Represents(c, st, rs)
    ensures Ops(Log.After(c, maxBytes, st, Log.Enqueue(q, ts)).mem.pending)
            == Ops(st.mem.pending) + if Fits(c, maxBytes, st.mem, q, ts) then [q] else []
  {
    var e := Log.QueueEntry(st.mem.nextId, ts, q);
    Log.SetNew(c, st.mem.pending, e);
    OpsSnoc(st.mem.pending, e);
    assert Ops(st.mem.pending) + [] == Ops(st.mem.pending);
  }

  lemma DurableStepSimulates(env: Env, c: Log.Codec, maxBytes: nat, remote: Tree, d: Durable, rs: seq<Log.Record>, v: Tree, event: Event)
    returns (rs': seq<Log.Record>)
    requires Log.Sound(c) && Sound(env, c, remote, d, rs, v)
    requires OnlineRun(env, v, DurableStep(env, c, maxBytes, d, event).accepted).ok
    ensures var step := DurableStep(env, c, maxBytes, d, event);
            var on := OnlineRun(env, v, step.accepted);
            Sound(env, c, remote, step.now, rs', on.tree) && step.shown == on.shown
  {
    rs' := rs;
    var decided := Decided(env, c, maxBytes, d, event);
    OfflineStepSimulates(env, remote, View(d), v, decided);
    match event
    case Look(_, _) =>
    case Do(e, h) =>
      if Queued(env, d.cache, e).Some? {
        var q := Queued(env, d.cache, e).value;
        var request := Log.Enqueue(q, h.now);
        Log.RequestKeeps(c, maxBytes, d.store, rs, request);
        rs' := Log.RecordsAfter(c, maxBytes, d.store.mem, rs, request);
        EnqueuedIsQueued(c, maxBytes, d.store, rs, q, h.now);
      }
      assert View(DurableStep(env, c, maxBytes, d, event).now) == OfflineStep(env, View(d), decided).session;
  }

  lemma DurableRunSimulates(env: Env, c: Log.Codec, maxBytes: nat, remote: Tree, d: Durable, rs: seq<Log.Record>, v: Tree, events: seq<Event>)
    returns (rs': seq<Log.Record>)
    requires Log.Sound(c) && Sound(env, c, remote, d, rs, v)
    requires OnlineRun(env, v, DurableRun(env, c, maxBytes, d, events).accepted).ok
    ensures var run := DurableRun(env, c, maxBytes, d, events);
            var on := OnlineRun(env, v, run.accepted);
            Sound(env, c, remote, run.now, rs', on.tree) && run.shown == on.shown
    decreases |events|
  {
    rs' := rs;
    if events != [] {
      var step := DurableStep(env, c, maxBytes, d, events[0]);
      var rest := DurableRun(env, c, maxBytes, step.now, events[1..]);
      OnlineRunConcat(env, v, step.accepted, rest.accepted);
      rs' := DurableStepSimulates(env, c, maxBytes, remote, d, rs, v, events[0]);
      rs' := DurableRunSimulates(env, c, maxBytes, remote, step.now, rs', OnlineRun(env, v, step.accepted).tree, events[1..]);
    }
  }

  /**
   Offline edits survive a crash. Whatever was asked for while reconnecting, on top of whatever an earlier
   launch left queued, a crash at rest or at any point of writing one more edit to the log, then the log
   reopened and drained with an empty cache: the remote is the tree of the online run of the accepted
   edits, or of those and the interrupted one.
   */
  lemma {:induction false} CrashedSessionEqualsOnline(env: Env, c: Log.Codec, maxBytes: nat, remote: Tree, d: Durable, rs: seq<Log.Record>, v: Tree,
                                   events: seq<Event>, last: Event, left: Log.Disk, hosts: nat -> Host)
    requires Log.Sound(c) && WellFormed(remote) && Sound(env, c, remote, d, rs, v)
    requires var run := DurableRun(env, c, maxBytes, d, events);
             && OnlineRun(env, v, run.accepted).ok
             && Interrupted(env, c, maxBytes, run.now, last, left)
             && OnlineRun(env, OnlineRun(env, v, run.accepted).tree, DurableStep(env, c, maxBytes, run.now, last).accepted).ok
    ensures var run := DurableRun(env, c, maxBytes, d, events);
            var on := OnlineRun(env, v, run.accepted);
            var more := OnlineRun(env, on.tree, DurableStep(env, c, maxBytes, run.now, last).accepted);
            var drained := Drain(env, [], remote, Ops(Log.Reopen(c, left.log).pending), hosts);
            run.shown == on.shown && drained.ok && (drained.tree == on.tree || drained.tree == more.tree)
  {
    var run := DurableRun(env, c, maxBytes, d, events);
    var on := OnlineRun(env, v, run.accepted);
    var rs1 := DurableRunSimulates(env, c, maxBytes, remote, d, rs, v, events);
    var rs2 := DurableStepSimulates(env, c, maxBytes, remote, run.now, rs1, on.tree, last);
    var after := DurableStep(env, c, maxBytes, run.now, last).now;
    var more := OnlineRun(env, on.tree, DurableStep(env, c, maxBytes, run.now, last).accepted);
    DrainReachesVirtual(env, [], remote, View(run.now).queue, on.tree, hosts);
    DrainReachesVirtual(env, [], remote, View(after).queue, more.tree, hosts);
    match Logged(env, run.now, last)
    case None => Log.ReopenWhole(c, rs1);
    case Some(request) => Log.CrashSafe(c, maxBytes, run.now.store, rs1, request, left);
  }

  /** What a crash leaves on disk: everything, or a part of what the last request was writing. */
  ghost predicate Interrupted(env: Env, c: Log.Codec, maxBytes: nat, d: Durable, last: Event, left: Log.Disk) {
    match Logged(env, d, last)
    case None => left == d.store.disk
    case Some(request) => Log.CrashLeaves(d.store.disk, Log.Plan(c, maxBytes, d.store.mem, request).1, left)
  }

  // ---------------------------------------------------------------- a crash during the drain

  /** The log after the drain has completed the `k` oldest entries. */
  function Completions(c: Log.Codec, maxBytes: nat, st: Log.Store, k: nat, ts: int): Log.Store {
    if k == 0 then st else CompleteOldest(c, maxBytes, Completions(c, maxBytes, st, k - 1, ts), ts)
  }

  function CompleteOldest(c: Log.Codec, maxBytes: nat, st: Log.Store, ts: int): Log.Store {
    if st.mem.pending == [] then st else Log.After(c, maxBytes, st, Log.Complete(st.mem.pending[0].id, ts))
  }

  lemma CompletionsKeep(c: Log.Codec, maxBytes: nat, st: Log.Store, rs: seq<Log.Record>, k: nat, ts: int) returns (rs': seq<Log.Record>)
    requires Log.Sound(c) && Log.Represents(c, st, rs) && k <= |st.mem.pending|
    ensures Log.Represents(c, Completions(c, maxBytes, st, k, ts), rs')
    ensures Completions(c, maxBytes, st, k, ts).mem.pending == st.mem.pending[k..]
  {
    rs' := rs;
    if k > 0 {
      rs' := CompletionsKeep(c, maxBytes, st, rs, k - 1, ts);
      var before := Completions(c, maxBytes, st, k - 1, ts);
      var request := Log.Complete(before.mem.pending[0].id, ts);
      Log.RequestKeeps(c, maxBytes, before, rs', request);
      rs' := Log.RecordsAfter(c, maxBytes, before.mem, rs', request);
    }
  }

  lemma {:induction false} OpsSuffix(pending: seq<Log.QueueEntry>, k: nat)
    requires k <= |pending|
    ensures |Ops(pending)| == |pending| && Ops(pending[k..]) == Ops(pending)[k..]
  {
    if k > 0 {
      OpsSuffix(pending[1..], k - 1);
      assert pending[1..][k - 1..] == pending[k..];
    } else if pending != [] {
      OpsSuffix(pending[1..], 0);
    }
  }

  /** Where the crash finds the drain: before the next operation takes effect, or while its completion is written. */
  datatype CrashPoint = BeforeEffect | WhileRecording(left: Log.Disk)

  ghost predicate Possible(c: Log.Codec, maxBytes: nat, now: Log.Store, ts: int, at: CrashPoint)
    requires now.mem.pending != []
  {
    at.WhileRecording? ==>
      Log.CrashLeaves(now.disk, Log.Plan(c, maxBytes, now.mem, Log.Complete(now.mem.pending[0].id, ts)).1, at.left)
  }

  /** What the reopened log has pending. */
  function Reopened(c: Log.Codec, now: Log.Store, at: CrashPoint): seq<Log.QueueEntry> {
    Log.Reopen(c, if at.WhileRecording? then at.left.log else now.disk.log).pending
  }

  /** The operation took effect and the log does not know. */
  predicate Forgotten(c: Log.Codec, now: Log.Store, at: CrashPoint) {
    at.WhileRecording? && Reopened(c, now, at) == now.mem.pending
  }

  /**
   A drain on top of the log, cut by a crash at any point of any operation, compaction included; then the log
   reopened and drained again. The remote ends as if there had been no crash if and only if the operation's
   effect was not forgotten or may be repeated; otherwise the drain stops at it and changes nothing.
   */
  lemma {:induction false} CrashedDrain(env: Env, c: Log.Codec, maxBytes: nat, remote: Tree, st: Log.Store, rs: seq<Log.Record>, v: Tree,
                     k: nat, ts: int, at: CrashPoint, hosts: nat -> Host)
    requires Log.Sound(c) && Log.Represents(c, st, rs) && k < |st.mem.pending|
    requires WellFormed(remote) && NoAppends(Ops(st.mem.pending)) && ReplayAll(env, remote, Ops(st.mem.pending)) == Effect(v, true)
    requires var now := Completions(c, maxBytes, st, k, ts); now.mem.pending != [] && Possible(c, maxBytes, now, ts, at)
    ensures |Ops(st.mem.pending)| == |st.mem.pending|
    ensures var now, queue := Completions(c, maxBytes, st, k, ts), Ops(st.mem.pending);
            var reached := ReplayAll(env, remote, queue[..k]).tree;
            var found := if at.BeforeEffect? then reached else ReplayTree(env, reached, queue[k]).tree;
            var drained := Drain(env, [], found, Ops(Reopened(c, now, at)), hosts);
            if Forgotten(c, now, at) && !Repeatable(env, queue[k]) then !drained.ok && drained.tree == found
            else drained.ok && drained.tree == v
  {
    var now, queue := Completions(c, maxBytes, st, k, ts), Ops(st.mem.pending);
    var rs' := CompletionsKeep(c, maxBytes, st, rs, k, ts);
    OpsSuffix(st.mem.pending, k);
    OpsSuffix(now.mem.pending, 1);
    assert queue == queue[..k] + queue[k..];
    ReplayConcat(env, remote, queue[..k], queue[k..]);
    ReplayedWellFormed(env, remote, queue[..k]);
    var reached := ReplayAll(env, remote, queue[..k]).tree;
    var rest := queue[k..];
    assert rest[0] == queue[k] && Ops(now.mem.pending) == rest;
    Log.ReopenWhole(c, rs');
    if at.WhileRecording? { AfterCompletion(c, maxBytes, now, rs', ts, at.left); }
    DrainAgain(env, reached, rest, v, hosts);
  }

  /** A crash while a completion is written leaves its entry pending, or not. */
  lemma {:induction false} AfterCompletion(c: Log.Codec, maxBytes: nat, now: Log.Store, rs: seq<Log.Record>, ts: int, left: Log.Disk)
    requires Log.Sound(c) && Log.Represents(c, now, rs) && now.mem.pending != []
    requires Log.CrashLeaves(now.disk, Log.Plan(c, maxBytes, now.mem, Log.Complete(now.mem.pending[0].id, ts)).1, left)
    ensures Log.Reopen(c, left.log).pending == now.mem.pending || Log.Reopen(c, left.log).pending == now.mem.pending[1..]
  {
    Log.CrashSafe(c, maxBytes, now, rs, Log.Complete(now.mem.pending[0].id, ts), left);
  }

  /** Draining what is left, from the tree reached or with its first operation already done. */
  lemma {:induction false} DrainAgain(env: Env, reached: Tree, rest: seq<QueuedOp>, v: Tree, hosts: nat -> Host)
    requires WellFormed(reached) && NoAppends(rest) && rest != [] && ReplayAll(env, reached, rest) == Effect(v, true)
    ensures var done := ReplayTree(env, reached, rest[0]).tree;
            var whole, tail, again := Drain(env, [], reached, rest, hosts), Drain(env, [], done, rest[1..], hosts), Drain(env, [], done, rest, hosts);
            && whole.ok && whole.tree == v && tail.ok && tail.tree == v
            && (if Repeatable(env, rest[0]) then again.ok && again.tree == v else !again.ok && again.tree == done)
  {
    var done := ReplayTree(env, reached, rest[0]).tree;
    assert [rest[0]] == rest[..1] && rest == rest[..1] + rest[1..];
    OneReplayed(env, reached, rest[0]);
    ReplayedWellFormed(env, reached, [rest[0]]);
    DrainReachesVirtual(env, [], reached, rest, v, hosts);
    DrainReachesVirtual(env, [], done, rest[1..], v, hosts);
    CompletionLost(env, reached, rest, v);
    if Repeatable(env, rest[0]) {
      DrainReachesVirtual(env, [], done, rest, v, hosts);
    } else {
      ReplayedIsOnline(env, [], done, rest[0], hosts(|rest|));
      ReplayTwice(env, reached, rest[0]);
    }
  }
}
