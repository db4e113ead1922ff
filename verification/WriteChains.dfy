/**
 How the adapter orders one window's operations: a chain of writes a path, and path mutations that
 wait for the chains at or under their paths. Operations are numbered in issue order.
 */
module WriteChains {
  import opened Lru
  import opened Text

  datatype Phase = Waiting | Running | Settled(ok: bool) | Cleaned(ok: bool)

  /** A write remembers the tail it was chained to; a mutation the tails it found. */
  datatype Operation =
    | Write(path: string, prev: Option<nat>, phase: Phase)
    | Mutation(paths: seq<string>, waitsFor: set<nat>, phase: Phase)

  datatype State = State(ops: seq<Operation>, chains: map<string, nat>)

  datatype Event =
    | IssueWrite(path: string)
    | IssueMutation(paths: seq<string>)
    | Start(k: nat)
    | Settle(k: nat, ok: bool)
    | Cleanup(k: nat)

  const Idle := State([], map[])

  predicate Touches(paths: seq<string>, path: string) {
    exists i | 0 <= i < |paths| :: AtOrUnder(path, paths[i])
  }

  predicate Done(ops: seq<Operation>, k: nat) {
    k < |ops| && (ops[k].phase.Settled? || ops[k].phase.Cleaned?)
  }

  predicate Started(ops: seq<Operation>, k: nat) {
    k < |ops| && !ops[k].phase.Waiting?
  }

  function Tails(chains: map<string, nat>, paths: seq<string>): set<nat> {
    set path | path in chains && Touches(paths, path) :: chains[path]
  }

  predicate MayStart(ops: seq<Operation>, k: nat) {
    && k < |ops| && ops[k].phase.Waiting?
    && match ops[k] {
         case Write(_, prev, _) => prev.None? || Done(ops, prev.value)
         case Mutation(_, waitsFor, _) => forall t | t in waitsFor :: Done(ops, t)
       }
  }

  function WithPhase(s: State, k: nat, phase: Phase): State
    requires k < |s.ops|
  {
    s.(ops := s.ops[k := s.ops[k].(phase := phase)])
  }

  function Step(s: State, e: Event): State {
    match e
    case IssueWrite(path) =>
      State(s.ops + [Write(path, if path in s.chains then Some(s.chains[path]) else None, Waiting)],
            s.chains[path := |s.ops|])
    case IssueMutation(paths) =>
      s.(ops := s.ops + [Mutation(paths, Tails(s.chains, paths), Waiting)])
    case Start(k) => if MayStart(s.ops, k) then WithPhase(s, k, Running) else s
    case Settle(k, ok) => if k < |s.ops| && s.ops[k].phase.Running? then WithPhase(s, k, Settled(ok)) else s
    case Cleanup(k) =>
      if k < |s.ops| && s.ops[k].Write? && s.ops[k].phase.Settled? then
        var path := s.ops[k].path;
        var cleaned := WithPhase(s, k, Cleaned(s.ops[k].phase.ok));
        if path in s.chains && s.chains[path] == k then cleaned.(chains := s.chains - {path}) else cleaned
      else s
  }

  function Run(s: State, events: seq<Event>): State
    decreases |events|
  {
    if events == [] then s else Run(Step(s, events[0]), events[1..])
  }

  // ---------------------------------------------------------------- invariant

  predicate WriteAt(ops: seq<Operation>, k: nat, path: string) {
    k < |ops| && ops[k].Write? && ops[k].path == path
  }

  ghost predicate DoneBefore(ops: seq<Operation>, path: string, k: nat) {
    forall j: nat | j < k && WriteAt(ops, j, path) :: Done(ops, j)
  }

  ghost predicate NoneBetween(ops: seq<Operation>, path: string, j: nat, k: nat) {
    forall i: nat | j < i < k :: !WriteAt(ops, i, path)
  }

  /** A chain's entry is the last write issued to its path, and not yet cleaned up. */
  ghost predicate Tail(ops: seq<Operation>, path: string, t: nat) {
    WriteAt(ops, t, path) && !ops[t].phase.Cleaned? && NoneBetween(ops, path, t, |ops|)
  }

  /** A write's predecessor is the write issued to its path just before; without one, all of those had settled. */
  ghost predicate Follows(ops: seq<Operation>, k: nat)
    requires k < |ops| && ops[k].Write?
  {
    match ops[k].prev
    case None => DoneBefore(ops, ops[k].path, k)
    case Some(j) => j < k && WriteAt(ops, j, ops[k].path) && NoneBetween(ops, ops[k].path, j, k)
  }

  /** A mutation either finds an earlier write to its paths settled, or waits for one issued no earlier to that path. */
  ghost predicate Covers(ops: seq<Operation>, m: nat, w: nat)
    requires w < m < |ops| && ops[m].Mutation? && ops[w].Write?
  {
    Done(ops, w) || exists t | t in ops[m].waitsFor :: w <= t < m && WriteAt(ops, t, ops[w].path)
  }

  /** The order promised, for one operation: whatever it has to wait for is settled when it runs. */
  ghost predicate InTurn(ops: seq<Operation>, k: nat)
    requires k < |ops|
  {
    Started(ops, k) ==>
      match ops[k] {
        case Write(path, _, _) => DoneBefore(ops, path, k)
        case Mutation(paths, _, _) => forall w: nat | w < k && ops[w].Write? && Touches(paths, ops[w].path) :: Done(ops, w)
      }
  }

  ghost predicate Linked(ops: seq<Operation>, k: nat)
    requires k < |ops|
  {
    if ops[k].Write? then Follows(ops, k)
    else forall w: nat | w < k && ops[w].Write? && Touches(ops[k].paths, ops[w].path) :: Covers(ops, k, w)
  }

  ghost predicate Inv(s: State) {
    && (forall path | path in s.chains :: Tail(s.ops, path, s.chains[path]))
    && (forall k: nat | k < |s.ops| && s.ops[k].Write? && !Done(s.ops, k) :: s.ops[k].path in s.chains)
    && (forall k: nat | k < |s.ops| :: Linked(s.ops, k))
    && (forall k: nat | k < |s.ops| :: InTurn(s.ops, k))
  }

  // ---------------------------------------------------------------- preservation

  /** The same operations, further along, and perhaps more of them. */
  ghost predicate Grown(a: seq<Operation>, b: seq<Operation>) {
    && |a| <= |b|
    && forall j: nat | j < |a| :: SameButPhase(a[j], b[j]) && (Done(a, j) ==> Done(b, j))
  }

  ghost predicate SameButPhase(x: Operation, y: Operation) {
    match x
    case Write(path, prev, _) => y.Write? && y.path == path && y.prev == prev
    case Mutation(paths, waitsFor, _) => y.Mutation? && y.paths == paths && y.waitsFor == waitsFor
  }

  lemma RelationsGrow(a: seq<Operation>, b: seq<Operation>, path: string, j: nat, k: nat)
    requires Grown(a, b) && k <= |a|
    ensures WriteAt(a, j, path) ==> WriteAt(b, j, path)
    ensures DoneBefore(a, path, k) ==> DoneBefore(b, path, k)
    ensures NoneBetween(a, path, j, k) ==> NoneBetween(b, path, j, k)
  {
    assert forall i: nat | i < |a| && WriteAt(b, i, path) :: WriteAt(a, i, path);
  }

  lemma LinkedGrows(a: seq<Operation>, b: seq<Operation>, k: nat)
    requires Grown(a, b) && k < |a| && Linked(a, k)
    ensures Linked(b, k)
  {
    if a[k].Write? {
      RelationsGrow(a, b, a[k].path, if a[k].prev.Some? then a[k].prev.value else 0, k);
    } else {
      forall w: nat | w < k && b[w].Write? && Touches(b[k].paths, b[w].path) ensures Covers(b, k, w) {
        assert Covers(a, k, w);
      }
    }
  }

  lemma InTurnGrows(a: seq<Operation>, b: seq<Operation>, k: nat)
    requires Grown(a, b) && k < |a| && InTurn(a, k) && (Started(b, k) ==> Started(a, k))
    ensures InTurn(b, k)
  {
    if Started(b, k) {
      match a[k]
      case Write(path, _, _) =>
        RelationsGrow(a, b, path, 0, k);
      case Mutation(paths, _, _) =>
        forall w: nat | w < k && b[w].Write? && Touches(paths, b[w].path) ensures Done(b, w) {
          assert a[w].Write?;
        }
    }
  }

  /** A settled write had its turn, so every earlier one to its path is settled too. */
  lemma DoneUpTo(s: State, t: nat)
    requires Inv(s) && Done(s.ops, t) && s.ops[t].Write?
    ensures DoneBefore(s.ops, s.ops[t].path, t + 1)
  {
    assert InTurn(s.ops, t);
  }

  /** What may start has everything it must wait for behind it. */
  lemma ReadyIsInTurn(s: State, k: nat)
    requires Inv(s) && MayStart(s.ops, k)
    ensures InTurn(WithPhase(s, k, Running).ops, k)
  {
    var op, after := s.ops[k], WithPhase(s, k, Running).ops;
    assert Linked(s.ops, k);
    match op
    case Write(path, prev, _) =>
      if prev.Some? { DoneUpTo(s, prev.value); }
      assert DoneBefore(s.ops, path, k);
      RelationsGrow(s.ops, after, path, 0, k);
    case Mutation(paths, waitsFor, _) =>
      forall w: nat | w < k && after[w].Write? && Touches(paths, after[w].path) ensures Done(after, w) {
        assert Covers(s.ops, k, w);
        if !Done(s.ops, w) {
          var t :| t in waitsFor && w <= t < k && WriteAt(s.ops, t, s.ops[w].path);
          DoneUpTo(s, t);
        }
      }
  }

  lemma PhaseStep(s: State, k: nat, phase: Phase)
    requires Inv(s) && k < |s.ops| && !phase.Waiting? && !phase.Cleaned?
    requires if phase.Running? then MayStart(s.ops, k) else s.ops[k].phase.Running?
    ensures Inv(WithPhase(s, k, phase))
  {
    var after := WithPhase(s, k, phase);
    assert Grown(s.ops, after.ops);
    forall j: nat | j < |after.ops| ensures Linked(after.ops, j) && InTurn(after.ops, j) {
      LinkedGrows(s.ops, after.ops, j);
      if phase.Running? && j == k { ReadyIsInTurn(s, k); } else { InTurnGrows(s.ops, after.ops, j); }
    }
    forall path | path in after.chains ensures Tail(after.ops, path, after.chains[path]) {
      assert Tail(s.ops, path, s.chains[path]);
      RelationsGrow(s.ops, after.ops, path, s.chains[path], |s.ops|);
    }
  }

  lemma IssueKeeps(s: State, op: Operation, chains: map<string, nat>)
    requires Inv(s) && op.phase.Waiting? && Linked(s.ops + [op], |s.ops|)
    requires chains == if op.Write? then s.chains[op.path := |s.ops|] else s.chains
    ensures Inv(State(s.ops + [op], chains))
  {
    var after := s.ops + [op];
    assert Grown(s.ops, after);
    forall j: nat | j < |after| ensures Linked(after, j) && InTurn(after, j) {
      if j < |s.ops| {
        LinkedGrows(s.ops, after, j);
        InTurnGrows(s.ops, after, j);
      }
    }
    forall path | path in chains ensures Tail(after, path, chains[path]) {
      if path in s.chains {
        assert Tail(s.ops, path, s.chains[path]);
        RelationsGrow(s.ops, after, path, s.chains[path], |s.ops|);
      }
    }
  }

  lemma IssuedWriteFollows(s: State, path: string)
    requires Inv(s)
    ensures Linked(Step(s, IssueWrite(path)).ops, |s.ops|)
  {
    var after := Step(s, IssueWrite(path)).ops;
    assert Grown(s.ops, after);
    if path in s.chains {
      assert Tail(s.ops, path, s.chains[path]);
      RelationsGrow(s.ops, after, path, s.chains[path], |s.ops|);
    } else {
      assert DoneBefore(s.ops, path, |s.ops|);
      RelationsGrow(s.ops, after, path, 0, |s.ops|);
    }
  }

  lemma IssuedMutationCovers(s: State, paths: seq<string>)
    requires Inv(s)
    ensures Linked(Step(s, IssueMutation(paths)).ops, |s.ops|)
  {
    var m, after := |s.ops|, Step(s, IssueMutation(paths)).ops;
    forall w: nat | w < m && after[w].Write? && Touches(paths, after[w].path) ensures Covers(after, m, w) {
      if !Done(s.ops, w) {
        var path := s.ops[w].path;
        assert Tail(s.ops, path, s.chains[path]) && WriteAt(s.ops, w, path);
        assert s.chains[path] in after[m].waitsFor;
        assert WriteAt(after, s.chains[path], path);
      }
    }
  }

  lemma CleanupKeeps(s: State, k: nat)
    requires Inv(s)
    ensures Inv(Step(s, Cleanup(k)))
  {
    var after := Step(s, Cleanup(k));
    if after != s {
      assert Grown(s.ops, after.ops);
      forall j: nat | j < |after.ops| ensures Linked(after.ops, j) && InTurn(after.ops, j) {
        LinkedGrows(s.ops, after.ops, j);
        InTurnGrows(s.ops, after.ops, j);
      }
      var path := s.ops[k].path;
      DoneUpTo(s, k);
      if path in s.chains { assert Tail(s.ops, path, s.chains[path]); }
      forall other | other in after.chains ensures Tail(after.ops, other, after.chains[other]) {
        assert Tail(s.ops, other, s.chains[other]);
        RelationsGrow(s.ops, after.ops, other, s.chains[other], |s.ops|);
      }
      forall j: nat | j < |after.ops| && after.ops[j].Write? && !Done(after.ops, j) ensures after.ops[j].path in after.chains {
        assert s.ops[j].path in s.chains;
        assert WriteAt(s.ops, j, s.ops[j].path);
      }
    }
  }

  lemma StepKeeps(s: State, e: Event)
    requires Inv(s)
    ensures Inv(Step(s, e))
  {
    match e
    case IssueWrite(path) =>
      IssuedWriteFollows(s, path);
      IssueKeeps(s, Step(s, e).ops[|s.ops|], Step(s, e).chains);
    case IssueMutation(paths) =>
      IssuedMutationCovers(s, paths);
      IssueKeeps(s, Step(s, e).ops[|s.ops|], s.chains);
    case Start(k) => if MayStart(s.ops, k) { PhaseStep(s, k, Running); }
    case Settle(k, ok) => if k < |s.ops| && s.ops[k].phase.Running? { PhaseStep(s, k, Settled(ok)); }
    case Cleanup(k) => CleanupKeeps(s, k);
  }

  // ---------------------------------------------------------------- every schedule

  /** From an idle adapter, whatever the schedule and whichever writes fail. */
  lemma {:induction false} RunKeeps(s: State, events: seq<Event>)
    requires Inv(s)
    ensures Inv(Run(s, events))
    decreases |events|
  {
    if events != [] {
      StepKeeps(s, events[0]);
      RunKeeps(Step(s, events[0]), events[1..]);
    }
  }

  /** Writes to one path run in issue order, one at a time. */
  lemma {:induction false} WritesInOrder(events: seq<Event>, path: string, j: nat, k: nat)
    requires var ops := Run(Idle, events).ops; WriteAt(ops, j, path) && WriteAt(ops, k, path) && Started(ops, k) && j < k
    ensures Done(Run(Idle, events).ops, j)
  {
    RunKeeps(Idle, events);
    assert InTurn(Run(Idle, events).ops, k);
  }

  /** A mutation runs only when every write issued before it at or under its paths has settled. */
  lemma {:induction false} MutationAfterWrites(events: seq<Event>, m: nat, w: nat)
    requires var ops := Run(Idle, events).ops;
             && m < |ops| && ops[m].Mutation? && Started(ops, m)
             && w < m && ops[w].Write? && Touches(ops[m].paths, ops[w].path)
    ensures Done(Run(Idle, events).ops, w)
  {
    RunKeeps(Idle, events);
    assert InTurn(Run(Idle, events).ops, m);
  }

  /** A path has a chain entry while one of its writes is unsettled, and none once all are cleaned up. */
  lemma {:induction false} ChainWhileUnsettled(events: seq<Event>, path: string)
    ensures var s := Run(Idle, events);
            && (forall k: nat | WriteAt(s.ops, k, path) && !Done(s.ops, k) :: path in s.chains)
            && ((forall k: nat | WriteAt(s.ops, k, path) :: s.ops[k].phase.Cleaned?) ==> path !in s.chains)
  {
    RunKeeps(Idle, events);
    var s := Run(Idle, events);
    if path in s.chains { assert Tail(s.ops, path, s.chains[path]); }
  }

  /** Nothing waits for ever: while an operation is unsettled, one is running or may start. */
  lemma {:induction false} SomethingCanMove(s: State, k: nat) returns (j: nat)
    requires Inv(s) && k < |s.ops| && !Done(s.ops, k) && WaitsBack(s)
    ensures j <= k && j < |s.ops| && (s.ops[j].phase.Running? || MayStart(s.ops, j))
    decreases k
  {
    j := k;
    if s.ops[k].phase.Waiting? && !MayStart(s.ops, k) {
      match s.ops[k]
      case Write(_, prev, _) =>
        assert Linked(s.ops, k);
        j := SomethingCanMove(s, prev.value);
      case Mutation(_, waitsFor, _) =>
        var t :| t in waitsFor && !Done(s.ops, t);
        j := SomethingCanMove(s, t);
    }
  }

  /** Tails are older than the mutations waiting for them. */
  ghost predicate WaitsBack(s: State) {
    && (forall path | path in s.chains :: s.chains[path] < |s.ops|)
    && (forall m: nat, t | m < |s.ops| && s.ops[m].Mutation? && t in s.ops[m].waitsFor :: t < m)
  }

  lemma WaitsBackStep(s: State, e: Event)
    requires WaitsBack(s)
    ensures WaitsBack(Step(s, e))
  {
  }

  lemma {:induction false} NeverStuck(s: State, events: seq<Event>, k: nat) returns (j: nat)
    requires Inv(s) && WaitsBack(s)
    requires k < |Run(s, events).ops| && !Done(Run(s, events).ops, k)
    ensures var ops := Run(s, events).ops; j <= k && j < |ops| && (ops[j].phase.Running? || MayStart(ops, j))
    decreases |events|
  {
    if events == [] {
      j := SomethingCanMove(s, k);
    } else {
      StepKeeps(s, events[0]);
      WaitsBackStep(s, events[0]);
      j := NeverStuck(Step(s, events[0]), events[1..], k);
    }
  }

  /** A mutation waits only for earlier writes at or under its paths, a write only for the one before it to its path. */
  ghost predicate WaitsOnlyThere(ops: seq<Operation>, k: nat)
    requires k < |ops|
  {
    match ops[k]
    case Write(path, prev, _) => prev.Some? ==> prev.value < k && WriteAt(ops, prev.value, path)
    case Mutation(paths, waitsFor, _) => forall t | t in waitsFor :: t < k && ops[t].Write? && Touches(paths, ops[t].path)
  }

  ghost predicate NoNeedlessWait(s: State) {
    forall k: nat | k < |s.ops| :: WaitsOnlyThere(s.ops, k)
  }

  lemma WaitsOnlyGrows(a: seq<Operation>, b: seq<Operation>, k: nat)
    requires Grown(a, b) && k < |a| && WaitsOnlyThere(a, k)
    ensures WaitsOnlyThere(b, k)
  {
  }

  lemma NoNeedlessWaitStep(s: State, e: Event)
    requires Inv(s) && NoNeedlessWait(s)
    ensures NoNeedlessWait(Step(s, e))
  {
    var after := Step(s, e);
    assert Grown(s.ops, after.ops);
    forall path | path in s.chains ensures WriteAt(s.ops, s.chains[path], path) { assert Tail(s.ops, path, s.chains[path]); }
    forall k: nat | k < |after.ops| ensures WaitsOnlyThere(after.ops, k) {
      if k < |s.ops| { WaitsOnlyGrows(s.ops, after.ops, k); }
    }
  }

  /** Whatever the schedule, nothing waits that need not: operations elsewhere never hold each other up. */
  lemma {:induction false} NothingWaitsNeedlessly(s: State, events: seq<Event>)
    requires Inv(s) && NoNeedlessWait(s)
    ensures NoNeedlessWait(Run(s, events))
    decreases |events|
  {
    if events != [] {
      StepKeeps(s, events[0]);
      NoNeedlessWaitStep(s, events[0]);
      NothingWaitsNeedlessly(Step(s, events[0]), events[1..]);
    }
  }

  // ---------------------------------------------------------------- the adapter

  /** The part of the adapter that orders its operations. */
  class SftpDataAdapter {
    var writeChains: map<string, nat>
    var ops: seq<Operation>

    ghost function Now(): State
      reads this
    {
      State(ops, writeChains)
    }

    ghost predicate Valid()
      reads this
    {
      Inv(Now()) && WaitsBack(Now())
    }

    constructor ()
      ensures Valid() && Now() == Idle
    {
      writeChains, ops := map[], [];
    }

    /** Chain a write to its path. */
    method Serialized(path: string) returns (k: nat)
      requires Valid()
      modifies this
      ensures Valid() && Now() == Step(old(Now()), IssueWrite(path)) && k == |old(ops)|
    {
      StepKeeps(Now(), IssueWrite(path));
      var prev := if path in writeChains then Some(writeChains[path]) else None;
      k := |ops|;
      ops := ops + [Write(path, prev, Waiting)];
      writeChains := writeChains[path := k];
    }

    /** Collect the tails a mutation of `paths` has to wait for. */
    method WritesSettled(paths: seq<string>) returns (k: nat)
      requires Valid()
      modifies this`ops
      ensures Valid() && Now() == Step(old(Now()), IssueMutation(paths)) && k == |old(ops)|
    {
      var pending: set<nat> := {};
      var left := writeChains.Keys;
      while left != {}
        invariant left <= writeChains.Keys
        invariant pending == set path | path in writeChains && path !in left && Touches(paths, path) :: writeChains[path]
        decreases left
      {
        var path :| path in left;
        left := left - {path};
        if Touches(paths, path) {
          pending := pending + {writeChains[path]};
        }
      }
      assert pending == Tails(writeChains, paths);
      WaitsBackStep(Now(), IssueMutation(paths));
      StepKeeps(Now(), IssueMutation(paths));
      k := |ops|;
      ops := ops + [Mutation(paths, pending, Waiting)];
    }

    method Begin(k: nat)
      requires Valid() && MayStart(ops, k)
      modifies this`ops
      ensures Valid() && Now() == Step(old(Now()), Start(k))
    {
      StepKeeps(Now(), Start(k));
      ops := ops[k := ops[k].(phase := Running)];
    }

    method Finish(k: nat, ok: bool)
      requires Valid() && k < |ops| && ops[k].phase.Running?
      modifies this`ops
      ensures Valid() && Now() == Step(old(Now()), Settle(k, ok))
    {
      StepKeeps(Now(), Settle(k, ok));
      ops := ops[k := ops[k].(phase := Settled(ok))];
    }

    /** Drop the chain's entry, unless a later write has taken it over. */
    method Forget(k: nat)
      requires Valid() && k < |ops| && ops[k].Write? && ops[k].phase.Settled?
      modifies this
      ensures Valid() && Now() == Step(old(Now()), Cleanup(k))
    {
      StepKeeps(Now(), Cleanup(k));
      var path := ops[k].path;
      ops := ops[k := Write(path, ops[k].prev, Cleaned(ops[k].phase.ok))];
      if path in writeChains && writeChains[path] == k {
        writeChains := writeChains - {path};
      }
    }
  }
}
