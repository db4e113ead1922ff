/**
 Draining the offline queue: one drain on its own, and drains interleaved with enqueues, ended
 sessions and new ones. A step is the synchronous stretch between two awaits.
 */
module Replay {
  import opened Lru
  import Log = OfflineQueue

  // ---------------------------------------------------------------- one drain

  datatype ReplayOutcome = Ok | Conflict | Error(message: string)
  datatype ReplayReport = ReplayReport(drained: nat, conflicts: nat, errors: seq<(nat, string)>)

  /** How many entries are decided before the first one that errors. */
  function DecidedPrefix(entries: seq<Log.QueueEntry>, target: Log.QueueEntry -> ReplayOutcome): (n: nat)
    ensures n <= |entries|
    ensures forall i | 0 <= i < n :: !target(entries[i]).Error?
    ensures n < |entries| ==> target(entries[n]).Error?
  {
    if entries == [] || target(entries[0]).Error? then 0 else 1 + DecidedPrefix(entries[1..], target)
  }

  function CountOf(entries: seq<Log.QueueEntry>, target: Log.QueueEntry -> ReplayOutcome, outcome: ReplayOutcome): nat {
    if entries == [] then 0
    else CountOf(entries[..|entries| - 1], target, outcome) + if target(entries[|entries| - 1]) == outcome then 1 else 0
  }

  /** Completing the oldest entry leaves the others. */
  lemma HeadCompleted(c: Log.Codec, maxBytes: nat, st: Log.Store, ts: int)
    requires st.mem.pending != []
    ensures Log.After(c, maxBytes, st, Log.Complete(st.mem.pending[0].id, ts)).mem.pending == st.mem.pending[1..]
  {
  }

  class QueueReplayer {
    const queue: Log.OfflineQueue

    constructor (queue: Log.OfflineQueue)
      ensures this.queue == queue
    {
      this.queue := queue;
    }

    /** Oldest first; a decided entry is completed, the first error stops the drain and stays queued. */
    method Run(target: Log.QueueEntry -> ReplayOutcome, now: int) returns (report: ReplayReport)
      requires Log.Ascending(queue.pendingMap)
      modifies queue, queue.files
      ensures var was := old(queue.pendingMap);
              var n := DecidedPrefix(was, target);
              && queue.pendingMap == was[n..]
              && report.drained == CountOf(was[..n], target, Ok)
              && report.conflicts == CountOf(was[..n], target, Conflict)
              && report.errors == if n < |was| then [(was[n].id, target(was[n]).message)] else []
    {
      report := ReplayReport(0, 0, []);
      Log.SortedStays(queue.pendingMap);
      var entries := queue.Pending();
      for i := 0 to |entries|
        invariant queue.pendingMap == entries[i..] && report.errors == []
        invariant report.drained == CountOf(entries[..i], target, Ok)
        invariant report.conflicts == CountOf(entries[..i], target, Conflict)
        invariant forall k | 0 <= k < i :: !target(entries[k]).Error?
      {
        var entry := entries[i];
        var outcome := target(entry);
        if outcome.Error? {
          DecidedIs(entries, target, i);
          return report.(errors := [(entry.id, outcome.message)]);
        }
        assert entries[..i + 1][..i] == entries[..i];
        HeadCompleted(queue.codec, queue.maxBytes, queue.Now(), now);
        queue.MarkCompleted(entry.id, now);
        report := if outcome == Ok then report.(drained := report.drained + 1)
                  else report.(conflicts := report.conflicts + 1);
      }
      DecidedIs(entries, target, |entries|);
    }
  }

  lemma {:induction false} DecidedIs(entries: seq<Log.QueueEntry>, target: Log.QueueEntry -> ReplayOutcome, n: nat)
    requires n <= |entries| && (forall k | 0 <= k < n :: !target(entries[k]).Error?)
    requires n < |entries| ==> target(entries[n]).Error?
    ensures DecidedPrefix(entries, target) == n
  {
    if n > 0 { DecidedIs(entries[1..], target, n - 1); }
  }

  // ---------------------------------------------------------------- drains, sessions and the queue

  /** A drain under way: its snapshot, the entry it works on, and the session it started in. */
  datatype Drain = Drain(snapshot: seq<nat>, next: nat, startedIn: nat, adapter: nat)

  /** `Awaiting` an operation's outcome, or `Marking` it completed. */
  datatype Phase = Waiting | Awaiting(drain: Drain) | Marking(drain: Drain) | Finished

  /** A call of `replayOfflineQueue`, run once the call `after` has finished. */
  datatype Call = Call(generation: nat, after: Option<nat>, phase: Phase)

  /** What was true at the moment an operation was handed to an adapter. */
  datatype Dispatch = Dispatch(id: nat, startedIn: nat, adapter: nat, generation: nat, current: Option<nat>, completed: seq<nat>)

  /** Operations are named by their place in enqueue order, adapters by the order they were made in. */
  datatype State = State(
    enqueued: nat, pending: seq<nat>, completed: seq<nat>,
    generation: nat, adapters: nat, adapter: Option<nat>,
    replaying: Option<nat>, calls: seq<Call>, log: seq<Dispatch>)

  datatype Event =
    | Enqueue | Clear
    | Restore | Patch
    | Replay
    | Start(k: nat)
    | Settled(k: nat, decided: bool)
    | Marked(k: nat)
    | MarkFailed(k: nat)
    | Unchain(k: nat)

  function WithPhase(s: State, k: nat, phase: Phase): State
    requires k < |s.calls|
  {
    s.(calls := s.calls[k := s.calls[k].(phase := phase)])
  }

  /** Dispatch the drain's current entry, unless there is none or the session has ended. */
  function Advance(s: State, k: nat, d: Drain): State
    requires k < |s.calls|
  {
    if d.next < |d.snapshot| && d.startedIn == s.generation then
      WithPhase(s.(log := s.log + [Dispatch(d.snapshot[d.next], d.startedIn, d.adapter, s.generation, s.adapter, s.completed)]),
                k, Awaiting(d))
    else WithPhase(s, k, Finished)
  }

  function RemoveId(pending: seq<nat>, id: nat): seq<nat> {
    if pending == [] then [] else if pending[0] == id then pending[1..] else [pending[0]] + RemoveId(pending[1..], id)
  }

  predicate MayStart(s: State, k: nat) {
    && k < |s.calls| && s.calls[k].phase.Waiting?
    && (s.calls[k].after.None? || (s.calls[k].after.value < |s.calls| && s.calls[s.calls[k].after.value].phase.Finished?))
  }

  function Step(s: State, e: Event): State {
    match e
    case Enqueue => s.(pending := s.pending + [s.enqueued], enqueued := s.enqueued + 1)
    case Clear => s.(pending := [])
    case Restore => s.(adapter := None, generation := s.generation + 1)
    case Patch => if s.adapter.Some? then s else s.(adapter := Some(s.adapters), adapters := s.adapters + 1)
    case Replay => s.(calls := s.calls + [Call(s.generation, s.replaying, Waiting)], replaying := Some(|s.calls|))
    case Start(k) =>
      if !MayStart(s, k) then s
      else if s.calls[k].generation == s.generation && s.adapter.Some? then
        Advance(s, k, Drain(s.pending, 0, s.generation, s.adapter.value))
      else WithPhase(s, k, Finished)
    case Settled(k, decided) =>
      if k < |s.calls| && s.calls[k].phase.Awaiting? then
        WithPhase(s, k, if decided then Marking(s.calls[k].phase.drain) else Finished)
      else s
    case Marked(k) =>
      if k < |s.calls| && s.calls[k].phase.Marking? then
        var d := s.calls[k].phase.drain;
        var id := if d.next < |d.snapshot| then d.snapshot[d.next] else 0;
        var done := if id in s.pending then s.(pending := RemoveId(s.pending, id), completed := s.completed + [id]) else s;
        Advance(done, k, d.(next := d.next + 1))
      else s
    case MarkFailed(k) => if k < |s.calls| && s.calls[k].phase.Marking? then WithPhase(s, k, Finished) else s
    case Unchain(k) =>
      if k < |s.calls| && s.calls[k].phase.Finished? && s.replaying == Some(k) then s.(replaying := None) else s
  }

  function Run(s: State, events: seq<Event>): State
    decreases |events|
  {
    if events == [] then s else Run(Step(s, events[0]), events[1..])
  }

  function Ids(n: nat): seq<nat> {
    seq(n, i requires 0 <= i < n => i)
  }

  /** At plugin start: what the log still holds is pending, and nothing has run. */
  function Opened(n: nat): State {
    State(n, Ids(n), [], 0, 0, None, None, [], [])
  }

  // ---------------------------------------------------------------- no two drains overlap

  /** The promise chain: every call waits for its predecessor, unless all of them had finished. */
  ghost predicate Chained(calls: seq<Call>, replaying: Option<nat>) {
    && (forall k | 0 <= k < |calls| :: Linked(calls, k))
    && (forall k | 0 <= k < |calls| && !calls[k].phase.Waiting? :: AllFinished(calls, k))
    && (replaying.Some? ==> replaying.value + 1 == |calls|)
    && (replaying.None? ==> AllFinished(calls, |calls|))
  }

  ghost predicate Linked(calls: seq<Call>, k: nat)
    requires k < |calls|
  {
    if calls[k].after.None? then AllFinished(calls, k) else calls[k].after.value + 1 == k
  }

  ghost predicate AllFinished(calls: seq<Call>, k: nat)
    requires k <= |calls|
  {
    forall j | 0 <= j < k :: calls[j].phase.Finished?
  }

  ghost predicate Active(phase: Phase) {
    phase.Awaiting? || phase.Marking?
  }

  lemma AtMostOneActive(s: State, j: nat, k: nat)
    requires Chained(s.calls, s.replaying) && j < |s.calls| && k < |s.calls|
    requires Active(s.calls[j].phase) && Active(s.calls[k].phase)
    ensures j == k
  {
    assert AllFinished(s.calls, k) && AllFinished(s.calls, j);
  }

  lemma StartedAlone(s: State, k: nat)
    requires Chained(s.calls, s.replaying) && MayStart(s, k)
    ensures AllFinished(s.calls, k)
  {
    assert Linked(s.calls, k);
    if k > 0 && s.calls[k].after.Some? { assert AllFinished(s.calls, k - 1); }
  }

  lemma PhaseKeeps(calls: seq<Call>, replaying: Option<nat>, k: nat, phase: Phase)
    requires Chained(calls, replaying) && k < |calls| && AllFinished(calls, k)
    requires !calls[k].phase.Finished? && !phase.Waiting?
    ensures Chained(calls[k := calls[k].(phase := phase)], replaying)
  {
    var after := calls[k := calls[k].(phase := phase)];
    forall j | 0 <= j < |after| ensures Linked(after, j) {
      assert Linked(calls, j);
    }
    LaterCallsWait(calls, replaying, k);
  }

  lemma LaterCallsWait(calls: seq<Call>, replaying: Option<nat>, k: nat)
    requires Chained(calls, replaying) && k < |calls| && !calls[k].phase.Finished?
    ensures forall j | k < j < |calls| :: calls[j].phase.Waiting?
    ensures replaying.Some?
  {
    assert forall j | k < j < |calls| :: calls[j].phase.Waiting? || calls[k].phase.Finished?;
  }

  /** What a step does to the calls: nothing, one more, or one call moves on. */
  lemma CallsAfter(s: State, e: Event)
    ensures e.Replay? ==> Step(s, e).calls == s.calls + [Call(s.generation, s.replaying, Waiting)]
    ensures var now, k := Step(s, e).calls, Mover(e);
            !e.Replay? && now != s.calls ==>
              && k < |s.calls| && (MayStart(s, k) || Active(s.calls[k].phase))
              && !now[k].phase.Waiting? && now == s.calls[k := s.calls[k].(phase := now[k].phase)]
  {
  }

  function Mover(e: Event): nat {
    match e
    case Start(k) => k
    case Settled(k, _) => k
    case Marked(k) => k
    case MarkFailed(k) => k
    case _ => 0
  }

  lemma ChainStep(s: State, e: Event)
    requires Chained(s.calls, s.replaying)
    ensures Chained(Step(s, e).calls, Step(s, e).replaying)
  {
    CallsAfter(s, e);
    var now, k := Step(s, e).calls, Mover(e);
    if e.Replay? {
      forall j | 0 <= j < |now| ensures Linked(now, j) {
        if j < |s.calls| { assert Linked(s.calls, j); }
      }
    } else if now != s.calls {
      if MayStart(s, k) { StartedAlone(s, k); }
      PhaseKeeps(s.calls, s.replaying, k, now[k].phase);
    }
  }

  // ---------------------------------------------------------------- sessions

  /** A running drain belongs to a session begun, and holds the adapter that session still has. */
  ghost predicate InSession(s: State, d: Drain) {
    d.startedIn <= s.generation && (d.startedIn == s.generation ==> s.adapter == Some(d.adapter))
  }

  /** Handed over by a drain of the session of that moment, to the adapter of that moment. */
  ghost predicate ToLiveSession(h: Dispatch) {
    h.startedIn == h.generation && h.current == Some(h.adapter)
  }

  ghost predicate Sessions(s: State) {
    && (forall k | 0 <= k < |s.calls| && Active(s.calls[k].phase) :: InSession(s, s.calls[k].phase.drain))
    && (forall h | h in s.log :: ToLiveSession(h))
  }

  lemma SessionsStep(s: State, e: Event)
    requires Sessions(s)
    ensures Sessions(Step(s, e))
  {
    CallsAfter(s, e);
  }

  // ---------------------------------------------------------------- order

  /** The rest of the snapshot is what the queue starts with. */
  ghost predicate InOrder(s: State, d: Drain) {
    d.next < |d.snapshot| && d.snapshot[d.next..] <= s.pending
  }

  /** Everything enqueued earlier had completed, and the operation itself had not. */
  ghost predicate InTurn(h: Dispatch) {
    h.completed == Ids(h.id)
  }

  /** Completed operations are a prefix of the enqueued ones; the rest is pending, in order. */
  ghost predicate Ordered(s: State) {
    && s.completed + s.pending == Ids(s.enqueued)
    && (forall k | 0 <= k < |s.calls| && Active(s.calls[k].phase) :: InOrder(s, s.calls[k].phase.drain))
    && (forall h | h in s.log :: InTurn(h))
  }

  lemma HeadIsNext(s: State)
    requires s.completed + s.pending == Ids(s.enqueued) && s.pending != []
    ensures s.completed == Ids(s.pending[0])
  {
    var n := |s.completed|;
    assert (s.completed + s.pending)[n] == s.pending[0];
    assert s.pending[0] == n;
    assert s.completed == (s.completed + s.pending)[..n];
  }

  lemma AdvanceKeepsOrder(s: State, k: nat, d: Drain)
    requires k < |s.calls| && s.completed + s.pending == Ids(s.enqueued)
    requires d.next <= |d.snapshot| && d.snapshot[d.next..] <= s.pending
    requires forall j | 0 <= j < |s.calls| && j != k :: !Active(s.calls[j].phase)
    requires forall h | h in s.log :: InTurn(h)
    ensures Ordered(Advance(s, k, d))
  {
    if d.next < |d.snapshot| {
      assert d.snapshot[d.next..][0] == s.pending[0];
      HeadIsNext(s);
    }
  }

  lemma OthersIdle(s: State, k: nat)
    requires Chained(s.calls, s.replaying) && k < |s.calls| && (MayStart(s, k) || Active(s.calls[k].phase))
    ensures forall j | 0 <= j < |s.calls| && j != k :: !Active(s.calls[j].phase)
  {
    if MayStart(s, k) { StartedAlone(s, k); }
    LaterCallsWait(s.calls, s.replaying, k);
  }

  lemma OrderStep(s: State, e: Event)
    requires Chained(s.calls, s.replaying) && Ordered(s) && e != Clear
    ensures Ordered(Step(s, e))
  {
    match e
    case Enqueue =>
      assert s.completed + (s.pending + [s.enqueued]) == Ids(s.enqueued) + [s.enqueued];
    case Start(k) =>
      if MayStart(s, k) {
        OthersIdle(s, k);
        if s.adapter.Some? { AdvanceKeepsOrder(s, k, Drain(s.pending, 0, s.generation, s.adapter.value)); }
      }
    case Marked(k) =>
      if k < |s.calls| && s.calls[k].phase.Marking? {
        OthersIdle(s, k);
        HeadCompletes(s, k);
      }
    case _ =>
  }

  lemma HeadCompletes(s: State, k: nat)
    requires k < |s.calls| && s.calls[k].phase.Marking? && Ordered(s)
    requires forall j | 0 <= j < |s.calls| && j != k :: !Active(s.calls[j].phase)
    ensures Ordered(Step(s, Marked(k)))
  {
    var d := s.calls[k].phase.drain;
    var id := d.snapshot[d.next];
    assert InOrder(s, d) && d.snapshot[d.next..][0] == s.pending[0];
    var done := s.(pending := s.pending[1..], completed := s.completed + [id]);
    assert done.completed + done.pending == s.completed + s.pending;
    assert d.snapshot[d.next + 1..] == d.snapshot[d.next..][1..];
    AdvanceKeepsOrder(done, k, d.(next := d.next + 1));
  }

  // ---------------------------------------------------------------- whole runs

  /** Any number of drains, errors, restores and enqueues, in any interleaving. */
  lemma {:induction false} RunOrdered(s: State, events: seq<Event>)
    requires Chained(s.calls, s.replaying) && Sessions(s)
    ensures var done := Run(s, events); Chained(done.calls, done.replaying) && Sessions(done)
    ensures Ordered(s) && Clear !in events ==> Ordered(Run(s, events))
    decreases |events|
  {
    if events != [] {
      ChainStep(s, events[0]);
      SessionsStep(s, events[0]);
      if Ordered(s) && Clear !in events { OrderStep(s, events[0]); }
      RunOrdered(Step(s, events[0]), events[1..]);
    }
  }

  lemma StepKeeps(s: State, e: Event)
    requires Chained(s.calls, s.replaying) && Sessions(s) && Ordered(s) && e != Clear
    ensures var next := Step(s, e); Chained(next.calls, next.replaying) && Sessions(next) && Ordered(next)
  {
    ChainStep(s, e);
    SessionsStep(s, e);
    OrderStep(s, e);
  }

  lemma OpenedOrdered(n: nat)
    ensures Chained(Opened(n).calls, Opened(n).replaying) && Sessions(Opened(n)) && Ordered(Opened(n))
  {
  }

  // ---------------------------------------------------------------- discarding

  /** A drain of this session that has the discarded operation `snapshot[i]` still to come. */
  ghost predicate Reaches(discarded: seq<nat>, s: State, k: nat, i: nat) {
    && k < |s.calls| && Active(s.calls[k].phase)
    && s.calls[k].phase.drain.startedIn == s.generation
    && s.calls[k].phase.drain.next < i < |s.calls[k].phase.drain.snapshot|
    && s.calls[k].phase.drain.snapshot[i] in discarded
  }

  /** Something discarded is handed over after `s`. */
  ghost predicate HandsOver(discarded: seq<nat>, s: State, after: State) {
    |s.log| <= |after.log| && exists i | |s.log| <= i < |after.log| :: after.log[i].id in discarded
  }

  /** No drain that could still hand over a discarded operation. */
  ghost predicate Clean(discarded: seq<nat>, s: State) {
    && Sessions(s)
    && (forall id | id in discarded :: id < s.enqueued && id !in s.pending)
    && (forall k | 0 <= k < |s.calls| && Active(s.calls[k].phase) && s.calls[k].phase.drain.startedIn == s.generation ::
          NothingLeft(discarded, s.calls[k].phase.drain))
  }

  /** None of what the drain has still to hand over was discarded. */
  ghost predicate NothingLeft(discarded: seq<nat>, d: Drain) {
    forall i | d.next < i < |d.snapshot| :: d.snapshot[i] !in discarded
  }

  lemma CleanAdvance(discarded: seq<nat>, s: State, k: nat, d: Drain)
    requires k < |s.calls| && Clean(discarded, s) && InSession(s, d)
    requires d.startedIn == s.generation ==> forall i | d.next <= i < |d.snapshot| :: d.snapshot[i] !in discarded
    ensures Clean(discarded, Advance(s, k, d)) && s.log <= Advance(s, k, d).log
    ensures !HandsOver(discarded, s, Advance(s, k, d))
  {
  }

  lemma {:induction false} RemovedMembers(pending: seq<nat>, id: nat)
    ensures forall x | x in RemoveId(pending, id) :: x in pending
  {
    if pending != [] { RemovedMembers(pending[1..], id); }
  }

  /** Such a state hands over nothing discarded, and stays one; new operations may be queued and drained. */
  lemma CleanStep(discarded: seq<nat>, s: State, e: Event)
    requires Clean(discarded, s)
    ensures Clean(discarded, Step(s, e)) && s.log <= Step(s, e).log && !HandsOver(discarded, s, Step(s, e))
  {
    SessionsStep(s, e);
    match e
    case Start(k) =>
      if MayStart(s, k) && s.adapter.Some? { CleanAdvance(discarded, s, k, Drain(s.pending, 0, s.generation, s.adapter.value)); }
    case Marked(k) =>
      if k < |s.calls| && s.calls[k].phase.Marking? {
        var d := s.calls[k].phase.drain;
        var id := if d.next < |d.snapshot| then d.snapshot[d.next] else 0;
        RemovedMembers(s.pending, id);
        var done := if id in s.pending then s.(pending := RemoveId(s.pending, id), completed := s.completed + [id]) else s;
        CleanAdvance(discarded, done, k, d.(next := d.next + 1));
      }
    case _ =>
  }

  lemma {:induction false} CleanRun(discarded: seq<nat>, s: State, events: seq<Event>)
    requires Clean(discarded, s)
    ensures s.log <= Run(s, events).log && !HandsOver(discarded, s, Run(s, events))
    decreases |events|
  {
    if events != [] {
      CleanStep(discarded, s, events[0]);
      CleanRun(discarded, Step(s, events[0]), events[1..]);
    }
  }

  /** The events that let drain `k` finish its current operation. */
  function FinishCurrent(s: State, k: nat): seq<Event>
    requires k < |s.calls|
  {
    if s.calls[k].phase.Awaiting? then [Settled(k, true), Marked(k)] else [Marked(k)]
  }

  lemma {:induction false} RunConcat(s: State, x: seq<Event>, y: seq<Event>)
    ensures Run(s, x + y) == Run(Run(s, x), y)
    decreases |x|
  {
    if x == [] {
      assert x + y == y;
    } else {
      RunConcat(Step(s, x[0]), x[1..], y);
      assert (x + y)[1..] == x[1..] + y;
    }
  }

  /** One operation finished, the next one of the snapshot is handed over. */
  lemma {:induction false} OneFurther(s: State, k: nat)
    requires k < |s.calls| && Active(s.calls[k].phase) && s.calls[k].phase.drain.startedIn == s.generation
    requires s.calls[k].phase.drain.next + 1 < |s.calls[k].phase.drain.snapshot|
    ensures var d, after := s.calls[k].phase.drain, Run(s, FinishCurrent(s, k));
            && after.generation == s.generation && |after.calls| == |s.calls|
            && after.calls[k].phase == Awaiting(d.(next := d.next + 1))
            && |after.log| == |s.log| + 1 && after.log[|s.log|].id == d.snapshot[d.next + 1]
  {
    var marking := if s.calls[k].phase.Awaiting? then Step(s, Settled(k, true)) else s;
    var after := Step(marking, Marked(k));
    assert Run(after, []) == after;
    assert [Marked(k)][1..] == [] && [Settled(k, true), Marked(k)][1..] == [Marked(k)];
    assert Run(marking, [Marked(k)]) == after;
  }

  /** So is, if nothing else happens, every one after it. */
  lemma {:induction false} GetsThere(discarded: seq<nat>, s: State, k: nat, i: nat) returns (events: seq<Event>)
    requires Reaches(discarded, s, k, i)
    ensures HandsOver(discarded, s, Run(s, events))
    decreases i - s.calls[k].phase.drain.next
  {
    OneFurther(s, k);
    events := FinishCurrent(s, k);
    if i > s.calls[k].phase.drain.next + 1 {
      var rest := GetsThere(discarded, Run(s, events), k, i);
      RunConcat(s, events, rest);
      events := events + rest;
    }
  }

  /** After discarding in `s`, these events hand over something that was discarded. */
  ghost predicate DiscardedReplayed(s: State, events: seq<Event>) {
    HandsOver(s.pending, s, Run(Step(s, Clear), events))
  }

  /**
   When discarding takes effect. Some continuation, of any events, hands over an operation discarded here
   if and only if a drain of this session has it still to come in its snapshot.
   */
  lemma {:induction false} DiscardTakesEffect(s: State)
    requires Sessions(s) && forall id | id in s.pending :: id < s.enqueued
    ensures (exists events :: DiscardedReplayed(s, events)) <==> exists k, i :: Reaches(s.pending, s, k, i)
  {
    if k, i :| Reaches(s.pending, s, k, i) {
      assert Reaches(s.pending, Step(s, Clear), k, i);
      var events := GetsThere(s.pending, Step(s, Clear), k, i);
      assert DiscardedReplayed(s, events);
    } else {
      SessionsStep(s, Clear);
      forall k | 0 <= k < |s.calls| && Active(s.calls[k].phase) && s.calls[k].phase.drain.startedIn == s.generation
        ensures NothingLeft(s.pending, s.calls[k].phase.drain)
      {
        var d := s.calls[k].phase.drain;
        forall i | d.next < i < |d.snapshot| ensures d.snapshot[i] !in s.pending {
          assert !Reaches(s.pending, s, k, i);
        }
      }
      forall events ensures !DiscardedReplayed(s, events) {
        CleanRun(s.pending, Step(s, Clear), events);
      }
    }
  }

  /** Pending operations have been enqueued, whatever happens, discarding included. */
  lemma {:induction false} PendingWasEnqueued(s: State, events: seq<Event>)
    requires forall id | id in s.pending :: id < s.enqueued
    ensures forall id | id in Run(s, events).pending :: id < Run(s, events).enqueued
    decreases |events|
  {
    if events != [] {
      if events[0].Marked? && events[0].k < |s.calls| && s.calls[events[0].k].phase.Marking? {
        var d := s.calls[events[0].k].phase.drain;
        RemovedMembers(s.pending, if d.next < |d.snapshot| then d.snapshot[d.next] else 0);
      }
      PendingWasEnqueued(Step(s, events[0]), events[1..]);
    }
  }

  /** Such a drain is soon there: two operations queued, a session, and its drain waiting for the first. */
  lemma DiscardCanFail()
    ensures var s := Run(Opened(2), [Patch, Replay, Start(0)]); Reaches(s.pending, s, 0, 1)
  {
    var s := Step(Step(Step(Opened(2), Patch), Replay), Start(0));
    assert [Patch, Replay, Start(0)][1..] == [Replay, Start(0)] && [Replay, Start(0)][1..] == [Start(0)] && [Start(0)][1..] == [];
    assert Run(s, []) == s;
    assert Run(Step(Step(Opened(2), Patch), Replay), [Start(0)]) == s;
    assert s.calls[0].phase.drain.snapshot[1] == 1 && s.pending[1] == 1;
  }

  // ---------------------------------------------------------------- a drain left alone

  /** The drain of call `k` waits for the oldest pending operation, the rest of its snapshot being what is pending. */
  ghost predicate InStep(s: State, k: nat) {
    && k < |s.calls| && s.calls[k].phase.Awaiting? && s.calls[k].phase.drain.startedIn == s.generation
    && s.calls[k].phase.drain.next < |s.calls[k].phase.drain.snapshot|
    && s.pending == s.calls[k].phase.drain.snapshot[s.calls[k].phase.drain.next..]
  }

  ghost predicate DrainedBy(s: State, k: nat, after: State) {
    && after.pending == [] && after.completed == s.completed + s.pending
    && |after.calls| == |s.calls| && k < |after.calls| && after.calls[k].phase.Finished?
    && after.generation == s.generation && after.enqueued == s.enqueued
  }

  lemma OneDrained(s: State, k: nat) returns (after: State)
    requires InStep(s, k)
    ensures after == Step(Step(s, Settled(k, true)), Marked(k))
    ensures if |s.pending| > 1 then InStep(after, k) else k < |after.calls| && after.calls[k].phase.Finished?
    ensures after.pending == s.pending[1..] && after.completed == s.completed + [s.pending[0]]
    ensures |after.calls| == |s.calls| && after.generation == s.generation && after.enqueued == s.enqueued
  {
    var d := s.calls[k].phase.drain;
    after := Step(Step(s, Settled(k, true)), Marked(k));
    assert s.pending[0] == d.snapshot[d.next] && d.snapshot[d.next..][1..] == d.snapshot[d.next + 1..];
  }

  lemma {:induction false} RestDrained(s: State, k: nat) returns (events: seq<Event>)
    requires InStep(s, k)
    ensures DrainedBy(s, k, Run(s, events))
    decreases |s.pending|
  {
    var after := OneDrained(s, k);
    events := [Settled(k, true), Marked(k)];
    assert events[1..] == [Marked(k)] && [Marked(k)][1..] == [];
    assert Run(Step(s, Settled(k, true)), [Marked(k)]) == Run(after, []);
    assert s.pending == [s.pending[0]] + s.pending[1..];
    if |s.pending| > 1 {
      var rest := RestDrained(after, k);
      RunConcat(s, events, rest);
      events := events + rest;
    }
  }

  /** If every operation is decided and nothing else happens, a drain that starts in its session completes all that is pending, in order. */
  lemma {:induction false} DrainCompletesAll(s: State, k: nat) returns (events: seq<Event>)
    requires MayStart(s, k) && s.calls[k].generation == s.generation && s.adapter.Some?
    ensures DrainedBy(s, k, Run(s, events))
  {
    var started := Step(s, Start(k));
    assert [Start(k)][1..] == [] && Run(started, []) == started;
    assert Run(s, [Start(k)]) == started;
    events := [Start(k)];
    if s.pending != [] {
      var rest := RestDrained(started, k);
      RunConcat(s, [Start(k)], rest);
      events := [Start(k)] + rest;
    }
  }

  // ---------------------------------------------------------------- the manager

  /** The fields that survive a session, and one method for each stretch between two awaits. */
  class AdapterManager {
    var pending: seq<nat>
    var replayGeneration: nat
    var dataAdapter: Option<nat>
    var adapters: nat
    var replaying: Option<nat>
    var calls: seq<Call>
    ghost var enqueued: nat
    ghost var completed: seq<nat>
    ghost var log: seq<Dispatch>

    ghost function Now(): State
      reads this
    {
      State(enqueued, pending, completed, replayGeneration, adapters, dataAdapter, replaying, calls, log)
    }

    ghost predicate Valid()
      reads this
    {
      Chained(calls, replaying) && Sessions(Now()) && Ordered(Now())
    }

    constructor (n: nat)
      ensures Valid() && Now() == Opened(n)
    {
      enqueued, pending, completed := n, Ids(n), [];
      replayGeneration, adapters, dataAdapter, replaying, calls, log := 0, 0, None, None, [], [];
      new;
      OpenedOrdered(n);
    }

    method Restore()
      requires Valid()
      modifies this
      ensures Valid() && Now() == Step(old(Now()), Event.Restore)
    {
      StepKeeps(Now(), Event.Restore);
      dataAdapter := None;
      replayGeneration := replayGeneration + 1;
    }

    method ReplayOfflineQueue()
      requires Valid()
      modifies this
      ensures Valid() && Now() == Step(old(Now()), Replay)
    {
      StepKeeps(Now(), Replay);
      calls := calls + [Call(replayGeneration, replaying, Waiting)];
      replaying := Some(|calls| - 1);
    }

    /** The continuation of the previous call: drain, or give way to a later session. */
    method DrainOfflineQueue(k: nat)
      requires Valid() && MayStart(Now(), k)
      modifies this
      ensures Valid() && Now() == Step(old(Now()), Start(k))
    {
      StepKeeps(Now(), Start(k));
      if calls[k].generation != replayGeneration || dataAdapter.None? {
        Become(k, Finished);
        return;
      }
      Next(k, Drain(pending, 0, replayGeneration, dataAdapter.value));
    }

    method Become(k: nat, phase: Phase)
      requires k < |calls|
      modifies this`calls
      ensures Now() == WithPhase(old(Now()), k, phase)
    {
      calls := calls[k := calls[k].(phase := phase)];
    }

    /** One turn of the replayer's loop, up to its first await. */
    method Next(k: nat, drain: Drain)
      requires k < |calls|
      modifies this`calls, this`log
      ensures Now() == Advance(old(Now()), k, drain)
    {
      if drain.next >= |drain.snapshot| || drain.startedIn != replayGeneration {
        Become(k, Finished);
        return;
      }
      log := log + [Dispatch(drain.snapshot[drain.next], drain.startedIn, drain.adapter, replayGeneration, dataAdapter, completed)];
      Become(k, Awaiting(drain));
    }

    method OperationSettled(k: nat, decided: bool)
      requires Valid() && k < |calls| && calls[k].phase.Awaiting?
      modifies this
      ensures Valid() && Now() == Step(old(Now()), Settled(k, decided))
    {
      StepKeeps(Now(), Settled(k, decided));
      Become(k, if decided then Marking(calls[k].phase.drain) else Finished);
    }

    method EntryMarked(k: nat)
      requires Valid() && k < |calls| && calls[k].phase.Marking?
      modifies this
      ensures Valid() && Now() == Step(old(Now()), Marked(k))
    {
      StepKeeps(Now(), Marked(k));
      var drain := calls[k].phase.drain;
      assert InOrder(Now(), drain);
      var id := drain.snapshot[drain.next];
      if id in pending {
        pending := RemoveId(pending, id);
        completed := completed + [id];
      }
      Next(k, drain.(next := drain.next + 1));
    }
  }
}
