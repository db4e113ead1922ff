/**
 The table of calls in flight. Calls, replies, aborts, write failures and a close may come in any
 order; each is one synchronous stretch of the client.
 */
module RpcClient {
  import opened Lru

  datatype How = Resolved | ErrorReply | Abandoned | WriteFailed | StreamClosed

  /** `cleanup`: an abort listener is registered and must be removed when the call settles. */
  datatype PendingCall = PendingCall(sentAt: int, requestBytes: nat, cleanup: bool)

  /**
   The fields, and the history: how often each call was settled and cleaned up after, which calls
   registered a cleanup, and how each was settled last. Ids grow, so the Map's insertion order is id order.
   */
  datatype Client = Client(
    pending: map<nat, PendingCall>, nextId: nat, closed: bool,
    settled: multiset<nat>, cleaned: multiset<nat>, registered: set<nat>, how: map<nat, How>)

  const Fresh := Client(map[], 1, false, multiset{}, multiset{}, {}, map[])

  datatype Signal = NoSignal | Live | AlreadyAborted

  datatype Event =
    | Call(signal: Signal, writes: bool, now: int, requestBytes: nat)
    | Reply(id: nat, error: bool)
    | Abort(id: nat)
    | Close

  /** `take`, then resolve or reject: only whoever finds the entry settles the call. */
  function Settle(s: Client, id: nat, how: How): Client {
    if id !in s.pending then s
    else
      s.(pending := s.pending - {id},
         settled := s.settled + multiset{id},
         cleaned := if s.pending[id].cleanup then s.cleaned + multiset{id} else s.cleaned,
         how := s.how[id := how])
  }

  function KeysBelow(p: map<nat, PendingCall>, n: nat): seq<nat> {
    if n == 0 then [] else KeysBelow(p, n - 1) + (if n - 1 in p then [n - 1] else [])
  }

  function SettleAll(s: Client, ids: seq<nat>, how: How): Client
    decreases |ids|
  {
    if ids == [] then s else SettleAll(Settle(s, ids[0], how), ids[1..], how)
  }

  /** A fresh id, its entry, and the abort listener of a live signal. */
  function Issue(s: Client, signal: Signal, now: int, requestBytes: nat): Client {
    s.(nextId := s.nextId + 1,
       pending := s.pending[s.nextId := PendingCall(now, requestBytes, signal.Live?)],
       registered := if signal.Live? then s.registered + {s.nextId} else s.registered)
  }

  function Step(s: Client, e: Event): Client {
    match e
    case Call(signal, writes, now, requestBytes) =>
      if s.closed then s
      else
        var issued := Issue(s, signal, now, requestBytes);
        if signal.AlreadyAborted? then Settle(issued, s.nextId, Abandoned)
        else if writes then issued
        else Settle(issued, s.nextId, WriteFailed)
    case Reply(id, error) => Settle(s, id, if error then ErrorReply else Resolved)
    case Abort(id) =>
      // The listener is there exactly while the call is pending with a live signal.
      if id in s.pending && s.pending[id].cleanup then Settle(s, id, Abandoned) else s
    case Close =>
      if s.closed then s else SettleAll(s.(closed := true), KeysBelow(s.pending, s.nextId), StreamClosed)
  }

  function Run(s: Client, events: seq<Event>): Client
    decreases |events|
  {
    if events == [] then s else Run(Step(s, events[0]), events[1..])
  }

  // ---------------------------------------------------------------- invariant

  ghost predicate Issued(s: Client, id: nat) {
    1 <= id < s.nextId
  }

  /**
   Every issued call is either pending or settled exactly once; a registered cleanup ran exactly once
   if its call is settled and not before; nothing else was ever settled or cleaned up.
   */
  ghost predicate ExactlyOnce(s: Client) {
    && s.nextId >= 1
    && (forall id | id in s.pending :: Issued(s, id) && (s.pending[id].cleanup <==> id in s.registered))
    && (forall id | id in s.registered :: Issued(s, id))
    && (forall id: nat :: s.settled[id] == if Issued(s, id) && id !in s.pending then 1 else 0)
    && (forall id: nat :: s.cleaned[id] == if id in s.registered && id !in s.pending then 1 else 0)
  }

  ghost predicate EmptyOnceClosed(s: Client) {
    s.closed ==> s.pending == map[]
  }

  /** One settlement touches this id and no other. */
  lemma SettleKeeps(s: Client, id: nat, how: How)
    requires ExactlyOnce(s)
    ensures ExactlyOnce(Settle(s, id, how)) && Settle(s, id, how).pending == s.pending - {id}
  {
  }

  lemma IssueKeeps(s: Client, signal: Signal, now: int, requestBytes: nat)
    requires ExactlyOnce(s)
    ensures ExactlyOnce(Issue(s, signal, now, requestBytes))
  {
  }

  lemma {:induction false} KeysBelowMembers(p: map<nat, PendingCall>, n: nat)
    ensures forall id :: id in KeysBelow(p, n) <==> id in p && id < n
  {
    if n > 0 { KeysBelowMembers(p, n - 1); }
  }

  lemma {:induction false} SettleAllKeeps(s: Client, ids: seq<nat>, how: How)
    requires ExactlyOnce(s)
    ensures var t := SettleAll(s, ids, how);
            && ExactlyOnce(t) && t.closed == s.closed && t.nextId == s.nextId
            && t.pending.Keys == s.pending.Keys - (set id | id in ids)
            && forall id | id in s.how && id !in ids :: id in t.how && t.how[id] == s.how[id]
    decreases |ids|
  {
    if ids != [] {
      SettleKeeps(s, ids[0], how);
      SettleAllKeeps(Settle(s, ids[0], how), ids[1..], how);
      assert ids == [ids[0]] + ids[1..];
    }
  }

  /** Every event keeps the invariant, and a closed client stays closed, issues nothing and holds nothing. */
  lemma StepKeeps(s: Client, e: Event)
    requires ExactlyOnce(s) && EmptyOnceClosed(s)
    ensures ExactlyOnce(Step(s, e)) && EmptyOnceClosed(Step(s, e))
    ensures s.closed ==> Step(s, e).closed && Step(s, e).nextId == s.nextId
  {
    match e
    case Call(signal, writes, now, requestBytes) =>
      if !s.closed {
        IssueKeeps(s, signal, now, requestBytes);
        SettleKeeps(Issue(s, signal, now, requestBytes), s.nextId, if signal.AlreadyAborted? then Abandoned else WriteFailed);
      }
    case Reply(id, error) => SettleKeeps(s, id, if error then ErrorReply else Resolved);
    case Abort(id) => SettleKeeps(s, id, Abandoned);
    case Close =>
      if !s.closed { CloseKeeps(s); }
  }

  lemma CloseKeeps(s: Client)
    requires ExactlyOnce(s) && !s.closed
    ensures ExactlyOnce(Step(s, Close)) && EmptyOnceClosed(Step(s, Close)) && Step(s, Close).closed
  {
    KeysBelowMembers(s.pending, s.nextId);
    SettleAllKeeps(s.(closed := true), KeysBelow(s.pending, s.nextId), StreamClosed);
  }

  /** Over every interleaving of calls, replies, aborts, write failures and a close. */
  lemma {:induction false} RunExactlyOnce(s: Client, events: seq<Event>)
    requires ExactlyOnce(s) && EmptyOnceClosed(s)
    ensures ExactlyOnce(Run(s, events)) && EmptyOnceClosed(Run(s, events))
    ensures s.closed ==> Run(s, events).closed && Run(s, events).pending == map[] && Run(s, events).nextId == s.nextId
    decreases |events|
  {
    if events != [] {
      StepKeeps(s, events[0]);
      RunExactlyOnce(Step(s, events[0]), events[1..]);
    }
  }

  lemma FreshExactlyOnce()
    ensures ExactlyOnce(Fresh) && EmptyOnceClosed(Fresh) && HowKnown(Fresh)
  {
  }

  /** A call leaves the table only by its own reply, its own abort, its own failed write, or the close. */
  lemma SettledByItsOwn(s: Client, e: Event, id: nat)
    requires ExactlyOnce(s) && EmptyOnceClosed(s)
    requires Step(s, e).settled[id] != s.settled[id]
    ensures match e
            case Call(signal, writes, _, _) => id == s.nextId && (signal.AlreadyAborted? || !writes)
            case Reply(x, _) => id == x && id in s.pending
            case Abort(x) => id == x && id in s.pending && id in s.registered
            case Close => id in s.pending
  {
    if e.Close? { ClosedOnlyPending(s, id); }
  }

  lemma ClosedOnlyPending(s: Client, id: nat)
    requires ExactlyOnce(s) && EmptyOnceClosed(s) && Step(s, Close).settled[id] != s.settled[id]
    ensures id in s.pending
  {
    if !s.closed {
      KeysBelowMembers(s.pending, s.nextId);
      SettleAllKeeps(s.(closed := true), KeysBelow(s.pending, s.nextId), StreamClosed);
      StepKeeps(s, Close);
    }
  }

  /** A settlement stands: nothing later changes how a call ended. */
  lemma {:induction false} OutcomeStands(s: Client, events: seq<Event>, id: nat)
    requires ExactlyOnce(s) && EmptyOnceClosed(s) && s.settled[id] == 1 && id in s.how
    ensures id in Run(s, events).how && Run(s, events).how[id] == s.how[id]
    decreases |events|
  {
    if events != [] {
      var t := Step(s, events[0]);
      StepKeeps(s, events[0]);
      if events[0].Close? && !s.closed {
        KeysBelowMembers(s.pending, s.nextId);
        SettleAllKeeps(s.(closed := true), KeysBelow(s.pending, s.nextId), StreamClosed);
      }
      OutcomeStands(t, events[1..], id);
    }
  }

  // ---------------------------------------------------------------- how each call ends

  /** In `s`, this event ends call `id` this way. */
  predicate Ends(s: Client, e: Event, id: nat, how: How) {
    match e
    case Call(signal, writes, _, _) =>
      !s.closed && id == s.nextId && ((signal.AlreadyAborted? && how == Abandoned) || (!signal.AlreadyAborted? && !writes && how == WriteFailed))
    case Reply(x, error) => id == x && id in s.pending && how == (if error then ErrorReply else Resolved)
    case Abort(x) => id == x && id in s.pending && id in s.registered && how == Abandoned
    case Close => !s.closed && id in s.pending && how == StreamClosed
  }

  predicate EndedAs(s: Client, id: nat, how: How) {
    id in s.how && s.how[id] == how
  }

  /** The history names an outcome for exactly the settled calls. */
  ghost predicate HowKnown(s: Client) {
    forall id: nat :: id in s.how <==> Issued(s, id) && id !in s.pending
  }

  lemma SettleEnds(s: Client, x: nat, h: How)
    requires HowKnown(s) && forall id | id in s.pending :: Issued(s, id)
    ensures HowKnown(Settle(s, x, h))
    ensures forall id: nat, how :: EndedAs(Settle(s, x, h), id, how) <==> EndedAs(s, id, how) || (id in s.pending && id == x && how == h)
  {
  }

  /** One event: a call ended some way before, or this event ends it that way. */
  lemma EndsExactly(s: Client, e: Event)
    requires ExactlyOnce(s) && EmptyOnceClosed(s) && HowKnown(s)
    ensures HowKnown(Step(s, e))
    ensures forall id: nat, how :: EndedAs(Step(s, e), id, how) <==> EndedAs(s, id, how) || Ends(s, e, id, how)
  {
    match e
    case Call(signal, writes, now, requestBytes) => CallEnds(s, signal, writes, now, requestBytes);
    case Reply(id, error) => SettleEnds(s, id, if error then ErrorReply else Resolved);
    case Abort(id) => SettleEnds(s, id, Abandoned);
    case Close =>
      if !s.closed {
        KeysBelowMembers(s.pending, s.nextId);
        AllEnded(s.(closed := true), KeysBelow(s.pending, s.nextId), StreamClosed);
      }
  }

  lemma CallEnds(s: Client, signal: Signal, writes: bool, now: int, requestBytes: nat)
    requires ExactlyOnce(s) && HowKnown(s)
    ensures var e := Call(signal, writes, now, requestBytes);
            && HowKnown(Step(s, e))
            && forall id: nat, how :: EndedAs(Step(s, e), id, how) <==> EndedAs(s, id, how) || Ends(s, e, id, how)
  {
    if !s.closed {
      var issued := Issue(s, signal, now, requestBytes);
      assert forall id: nat :: Issued(issued, id) <==> Issued(s, id) || id == s.nextId;
      assert forall id: nat, how :: EndedAs(issued, id, how) <==> EndedAs(s, id, how);
      SettleEnds(issued, s.nextId, if signal.AlreadyAborted? then Abandoned else WriteFailed);
    }
  }

  lemma {:induction false} AllEnded(s: Client, ids: seq<nat>, how: How)
    requires HowKnown(s) && forall id | id in s.pending :: Issued(s, id)
    ensures var t := SettleAll(s, ids, how);
            && HowKnown(t) && (forall id | id in t.pending :: Issued(t, id))
            && t.nextId == s.nextId
            && forall id: nat, x :: EndedAs(t, id, x) <==> EndedAs(s, id, x) || (id in s.pending && id in ids && x == how)
    decreases |ids|
  {
    if ids != [] {
      SettleEnds(s, ids[0], how);
      AllEnded(Settle(s, ids[0], how), ids[1..], how);
      assert ids == [ids[0]] + ids[1..];
    }
  }

  /** Some event of the run ends the call this way. */
  ghost predicate EndsDuring(s: Client, events: seq<Event>, id: nat, how: How) {
    exists k: nat :: EndsAt(s, events, k, id, how)
  }

  ghost predicate EndsAt(s: Client, events: seq<Event>, k: nat, id: nat, how: How) {
    k < |events| && Ends(Run(s, events[..k]), events[k], id, how)
  }

  /**
   Over every interleaving: a call has ended as resolved exactly if a reply with its id and no error came
   while it was pending, and likewise for error replies, aborts, failed writes and the close.
   */
  lemma {:induction false} HowExactly(s: Client, events: seq<Event>, id: nat, how: How)
    requires ExactlyOnce(s) && EmptyOnceClosed(s) && HowKnown(s)
    ensures HowKnown(Run(s, events))
    ensures EndedAs(Run(s, events), id, how) <==> EndedAs(s, id, how) || EndsDuring(s, events, id, how)
    decreases |events|
  {
    if events != [] {
      StepKeeps(s, events[0]);
      EndsExactly(s, events[0]);
      HowExactly(Step(s, events[0]), events[1..], id, how);
      NowOrLater(s, events, id, how);
    }
  }

  lemma {:induction false} NowOrLater(s: Client, events: seq<Event>, id: nat, how: How)
    requires events != []
    ensures EndsDuring(s, events, id, how) <==> Ends(s, events[0], id, how) || EndsDuring(Step(s, events[0]), events[1..], id, how)
  {
    assert Run(s, events[..0]) == s;
    assert EndsAt(s, events, 0, id, how) <==> Ends(s, events[0], id, how);
    if k: nat :| EndsAt(s, events, k, id, how) {
      if k > 0 {
        Unshift(s, events, k - 1);
        assert EndsAt(Step(s, events[0]), events[1..], k - 1, id, how);
      }
    }
    if k: nat :| EndsAt(Step(s, events[0]), events[1..], k, id, how) {
      Unshift(s, events, k);
      assert EndsAt(s, events, k + 1, id, how);
    }
  }

  lemma {:induction false} Unshift(s: Client, events: seq<Event>, k: nat)
    requires k < |events| - 1
    ensures Run(s, events[..k + 1]) == Run(Step(s, events[0]), events[1..][..k])
  {
    assert events[..k + 1][1..] == events[1..][..k];
  }

  /** A call still pending is waiting for its reply, with what it was sent with. */
  lemma IssuedEntry(s: Client, signal: Signal, now: int, requestBytes: nat)
    requires ExactlyOnce(s) && !s.closed && !signal.AlreadyAborted?
    ensures var t := Step(s, Call(signal, true, now, requestBytes));
            && t.pending == s.pending[s.nextId := PendingCall(now, requestBytes, signal == Live)]
            && t.nextId == s.nextId + 1 && t.how == s.how
            && t.registered == s.registered + if signal == Live then {s.nextId} else {}
  {
  }

  /** A probe sent and then abandoned leaves the table as it was, so it cannot pass for a call in progress. */
  lemma AbandonedProbeLeavesNoTrace(s: Client, now: int, requestBytes: nat)
    requires ExactlyOnce(s) && !s.closed
    ensures Step(Step(s, Call(Live, true, now, requestBytes)), Abort(s.nextId)).pending == s.pending
  {
    assert s.nextId !in s.pending;
  }

  // ---------------------------------------------------------------- the client object

  class RpcClient {
    var pending: map<nat, PendingCall>
    var nextId: nat
    var closed: bool
    ghost var settled: multiset<nat>
    ghost var cleaned: multiset<nat>
    ghost var registered: set<nat>
    ghost var how: map<nat, How>

    ghost function Now(): Client
      reads this
    {
      Client(pending, nextId, closed, settled, cleaned, registered, how)
    }

    ghost predicate Valid()
      reads this
    {
      ExactlyOnce(Now()) && EmptyOnceClosed(Now()) && HowKnown(Now())
    }

    constructor ()
      ensures Valid() && Now() == Fresh
    {
      pending, nextId, closed := map[], 1, false;
      settled, cleaned, registered, how := multiset{}, multiset{}, {}, map[];
    }

    /** Take a call out of the map and run its cleanup; false if something else already claimed it. */
    method Take(id: nat, ghost outcome: How) returns (taken: bool)
      modifies this
      ensures Now() == Settle(old(Now()), id, outcome) && taken == (id in old(pending))
    {
      if id !in pending { return false; }
      var entry := pending[id];
      pending := pending - {id};
      if entry.cleanup { cleaned := cleaned + multiset{id}; }
      settled := settled + multiset{id};
      how := how[id := outcome];
      return true;
    }

    method CallMethod(signal: Signal, writes: bool, now: int, requestBytes: nat) returns (id: Option<nat>)
      requires Valid()
      modifies this
      ensures Valid() && Now() == Step(old(Now()), Call(signal, writes, now, requestBytes))
      ensures id == if old(closed) then None else Some(old(nextId))
      ensures id.Some? && signal.AlreadyAborted? ==> EndedAs(Now(), id.value, Abandoned)
      ensures id.Some? && !signal.AlreadyAborted? && !writes ==> EndedAs(Now(), id.value, WriteFailed)
    {
      EndsExactly(Now(), Call(signal, writes, now, requestBytes));
      StepKeeps(Now(), Call(signal, writes, now, requestBytes));
      if closed { return None; }
      var callId := Register(signal, now, requestBytes);
      if signal.AlreadyAborted? {
        var _ := Take(callId, Abandoned);
      } else if !writes {
        var _ := Take(callId, WriteFailed);
      }
      return Some(callId);
    }

    method Register(signal: Signal, now: int, requestBytes: nat) returns (callId: nat)
      modifies this
      ensures callId == old(nextId) && Now() == Issue(old(Now()), signal, now, requestBytes)
    {
      callId := nextId;
      nextId := nextId + 1;
      pending := pending[callId := PendingCall(now, requestBytes, false)];
      if signal.Live? {
        pending := pending[callId := pending[callId].(cleanup := true)];
        registered := registered + {callId};
      }
    }

    method HandleMessage(id: nat, error: bool)
      requires Valid()
      modifies this
      ensures Valid() && Now() == Step(old(Now()), Reply(id, error))
      ensures id in old(pending) ==> EndedAs(Now(), id, if error then ErrorReply else Resolved)
      ensures id !in old(pending) ==> how == old(how)
    {
      EndsExactly(Now(), Reply(id, error));
      StepKeeps(Now(), Reply(id, error));
      var _ := Take(id, if error then ErrorReply else Resolved);
    }

    /** The abort listener, if it is still registered. */
    method OnAbort(id: nat)
      requires Valid()
      modifies this
      ensures Valid() && Now() == Step(old(Now()), Abort(id))
      ensures id in old(pending) && id in registered ==> EndedAs(Now(), id, Abandoned)
    {
      EndsExactly(Now(), Abort(id));
      StepKeeps(Now(), Abort(id));
      if id in pending && pending[id].cleanup {
        var _ := Take(id, Abandoned);
      }
    }

    method HandleClose()
      requires Valid()
      modifies this
      ensures Valid() && Now() == Step(old(Now()), Close) && closed && pending == map[]
      ensures forall id | id in old(pending) :: EndedAs(Now(), id, StreamClosed)
    {
      ghost var was := Now();
      EndsExactly(was, Close);
      StepKeeps(was, Close);
      if closed { return; }
      closed := true;
      var keys := KeysBelow(pending, nextId);
      var k := 0;
      assert keys[0..] == keys;
      while k < |keys|
        invariant 0 <= k <= |keys| && closed
        invariant SettleAll(Now(), keys[k..], StreamClosed) == Step(was, Close)
      {
        assert keys[k..][1..] == keys[k + 1..];
        var _ := Take(keys[k], StreamClosed);
        k := k + 1;
      }
    }

    /** The call waiting longest; among calls sent at the same instant, the first issued. */
    method OldestPending() returns (oldest: Option<nat>)
      requires Valid()
      ensures oldest.None? <==> pending == map[]
      ensures oldest.Some? ==>
                && oldest.value in pending
                && forall id | id in pending ::
                     pending[oldest.value].sentAt < pending[id].sentAt
                     || (pending[oldest.value].sentAt == pending[id].sentAt && oldest.value <= id)
    {
      oldest := None;
      for id := 0 to nextId
        invariant oldest.Some? ==> oldest.value in pending && oldest.value < id
        invariant oldest.None? ==> forall x | x in pending :: x >= id
        invariant oldest.Some? ==>
                    forall x | x in pending && x < id ::
                      pending[oldest.value].sentAt < pending[x].sentAt
                      || (pending[oldest.value].sentAt == pending[x].sentAt && oldest.value <= x)
      {
        if id in pending && (oldest.None? || pending[id].sentAt < pending[oldest.value].sentAt) {
          oldest := Some(id);
        }
      }
    }
  }
}
