/**
 Which schedules of device syncs are enough: who decides about an id that is installed on one device
 and uninstalled on another, and when a fleet agrees for good.
 */
module PluginSchedules {
  import opened PluginSync

  // ---------------------------------------------------------------- news about one id

  /** Installed here since the device's last sync. */
  predicate Adds(d: Device, id: string) {
    id in IdsOf(d.local) && id !in IdsOf(d.base)
  }

  /** Uninstalled here since the device's last sync. */
  predicate Drops(d: Device, id: string) {
    id !in IdsOf(d.local) && id in IdsOf(d.base)
  }

  predicate HasNews(d: Device, id: string) {
    Adds(d, id) || Drops(d, id)
  }

  /** What one round does to one id: the device's news, if it has any, overrides the remote. */
  lemma RoundDecides(f: Fleet, i: nat, id: string)
    requires Readable(f) && i < |f.devices| && f.remote.List? && id != SELF_PLUGIN_ID
    ensures Round(f, i).remote.List?
    ensures id in Round(f, i).remote.ids <==> if HasNews(f.devices[i], id) then Adds(f.devices[i], id) else id in f.remote.ids
  {
    RoundIds(f, i);
  }

  /** The place of the first round of device `i`; the length of the schedule if it has none. */
  function First(schedule: seq<nat>, i: nat): (k: nat)
    ensures k <= |schedule| && (k < |schedule| <==> i in schedule)
  {
    if schedule == [] || schedule[0] == i then 0
    else
      assert schedule == [schedule[0]] + schedule[1..];
      1 + First(schedule[1..], i)
  }

  lemma {:induction false} FirstSnoc(schedule: seq<nat>, last: nat, i: nat)
    ensures First(schedule + [last], i)
            == if i in schedule then First(schedule, i) else if i == last then |schedule| else |schedule| + 1
  {
    if schedule == [] {
      assert [last][1..] == [];
    } else {
      assert schedule == [schedule[0]] + schedule[1..];
      assert (schedule + [last])[1..] == schedule[1..] + [last];
      if schedule[0] != i { FirstSnoc(schedule[1..], last, i); }
    }
  }

  /** The device is among those synced and its first round comes after those of all that uninstalled `id`. */
  ghost predicate HasLastWord(f: Fleet, schedule: seq<nat>, id: string, a: nat) {
    && a < |f.devices| && a in schedule && Adds(f.devices[a], id)
    && forall r | 0 <= r < |f.devices| && r in schedule && Drops(f.devices[r], id) :: First(schedule, r) < First(schedule, a)
  }

  ghost predicate NoNews(f: Fleet, schedule: seq<nat>, id: string) {
    forall i | 0 <= i < |f.devices| && i in schedule :: !HasNews(f.devices[i], id)
  }

  ghost predicate EndsInstalled(f: Fleet, schedule: seq<nat>, id: string) {
    (exists a :: HasLastWord(f, schedule, id, a)) || (NoNews(f, schedule, id) && id in IdsOf(f.remote))
  }

  /** A device not in the schedule is as it was, one that is has nothing to say any more. */
  lemma {:induction false} DevicesAfter(f: Fleet, schedule: seq<nat>, i: nat)
    requires Readable(f) && i < |f.devices|
    ensures Readable(Rounds(f, schedule))
    ensures if i in schedule then Settled(Rounds(f, schedule).devices[i]) else Rounds(f, schedule).devices[i] == f.devices[i]
    decreases |schedule|
  {
    FirstSweep(f, schedule, {});
    if i !in schedule { Untouched(f, schedule, i); }
  }

  lemma {:induction false} Untouched(f: Fleet, schedule: seq<nat>, i: nat)
    requires i < |f.devices| && i !in schedule
    ensures Rounds(f, schedule).devices[i] == f.devices[i]
    decreases |schedule|
  {
    if schedule != [] {
      assert schedule == [schedule[0]] + schedule[1..];
      Untouched(Round(f, schedule[0]), schedule[1..], i);
    }
  }

  lemma {:induction false} LastRound(f: Fleet, schedule: seq<nat>, last: nat)
    ensures Rounds(f, schedule + [last]) == Round(Rounds(f, schedule), last)
  {
    RoundsConcat(f, schedule, [last]);
    assert [last][1..] == [];
    assert Rounds(Round(Rounds(f, schedule), last), []) == Round(Rounds(f, schedule), last);
  }

  /**
   Who decides. Only a device's first round carries its news, and the last such round decides: the id
   ends on the remote if some device that installed it has its first round after those of all devices
   that uninstalled it, or if no device synced has news and the remote had it.
   */
  lemma {:induction false} LastNewsDecides(f: Fleet, schedule: seq<nat>, id: string)
    requires Readable(f) && f.remote.List? && id != SELF_PLUGIN_ID
    ensures Rounds(f, schedule).remote.List?
    ensures id in Rounds(f, schedule).remote.ids <==> EndsInstalled(f, schedule, id)
    decreases |schedule|
  {
    if schedule != [] {
      var front, last := schedule[..|schedule| - 1], schedule[|schedule| - 1];
      assert schedule == front + [last];
      LastNewsDecides(f, front, id);
      LastRound(f, front, last);
      if last < |f.devices| {
        DevicesAfter(f, front, last);
        RoundDecides(Rounds(f, front), last, id);
      }
      OneMoreRound(f, front, last, id);
    }
  }

  /** How the condition changes with one more round. */
  lemma OneMoreRound(f: Fleet, front: seq<nat>, last: nat, id: string)
    ensures EndsInstalled(f, front + [last], id) <==>
              if last < |f.devices| && last !in front && HasNews(f.devices[last], id) then Adds(f.devices[last], id)
              else EndsInstalled(f, front, id)
  {
    var s := front + [last];
    forall i ensures First(s, i) == if i in front then First(front, i) else if i == last then |front| else |s| {
      FirstSnoc(front, last, i);
    }
    if last < |f.devices| && last !in front && HasNews(f.devices[last], id) {
      assert Adds(f.devices[last], id) ==> HasLastWord(f, s, id, last);
    } else {
      forall a ensures HasLastWord(f, s, id, a) <==> HasLastWord(f, front, id, a) {
      }
    }
  }

  /**
   An install on one device crossing an uninstall on another, nobody else with news of the id: over
   every schedule in which both sync, the install survives if and only if the uninstalling device had
   its first sync first. Later syncs of either no longer matter.
   */
  lemma {:induction false} LaterFirstSyncWins(f: Fleet, schedule: seq<nat>, adder: nat, remover: nat, id: string)
    requires Readable(f) && f.remote.List? && id != SELF_PLUGIN_ID
    requires adder < |f.devices| && remover < |f.devices| && adder in schedule && remover in schedule
    requires Adds(f.devices[adder], id) && Drops(f.devices[remover], id)
    requires forall i | 0 <= i < |f.devices| && i in schedule && i != adder && i != remover :: !HasNews(f.devices[i], id)
    ensures Rounds(f, schedule).remote.List?
    ensures id in Rounds(f, schedule).remote.ids <==> First(schedule, remover) < First(schedule, adder)
  {
    LastNewsDecides(f, schedule, id);
    assert HasLastWord(f, schedule, id, adder) <==> First(schedule, remover) < First(schedule, adder);
  }

  // ---------------------------------------------------------------- when a schedule is enough

  ghost predicate Converged(f: Fleet) {
    f.remote.List? && forall i | 0 <= i < |f.devices| :: Holds(f.devices[i], f.remote.ids)
  }

  ghost predicate AllIn(n: nat, schedule: seq<nat>) {
    forall i | 0 <= i < n :: i in schedule
  }

  /** By some round everyone has synced once, and from that very round on everyone syncs again. */
  ghost predicate EnoughAt(n: nat, schedule: seq<nat>, p: nat) {
    0 < p <= |schedule| && AllIn(n, schedule[..p]) && AllIn(n, schedule[p - 1..])
  }

  ghost predicate Enough(n: nat, schedule: seq<nat>) {
    exists p :: EnoughAt(n, schedule, p)
  }

  /** Enough for every fleet: the device whose round completes the first sweep needs no second one. */
  lemma {:induction false} EnoughConverges(f: Fleet, schedule: seq<nat>, p: nat)
    requires Readable(f) && f.devices != [] && EnoughAt(|f.devices|, schedule, p)
    ensures Converged(Rounds(f, schedule))
  {
    var front, last, back := schedule[..p - 1], schedule[p - 1], schedule[p..];
    assert schedule[..p] == front + [last] && schedule[p - 1..] == [last] + back && schedule == front + [last] + back;
    RoundsConcat(f, front + [last], back);
    EveryoneOnce(f, front, last);
    EveryoneElseAgain(Rounds(f, front + [last]), last, back);
  }

  /** From there on the remote stays, and everyone else takes it over. */
  lemma {:induction false} EveryoneElseAgain(h: Fleet, last: nat, back: seq<nat>)
    requires Readable(h) && h.remote.List? && SELF_PLUGIN_ID in h.remote.ids
    requires forall i | 0 <= i < |h.devices| :: Settled(h.devices[i])
    requires AllIn(|h.devices|, [last] + back) && (last < |h.devices| ==> Holds(h.devices[last], h.remote.ids))
    ensures Converged(Rounds(h, back))
  {
    var done: set<nat> := if last < |h.devices| then {last} else {};
    SecondSweep(h, back, done, h.remote.ids);
    var g := Rounds(h, back);
    forall i | 0 <= i < |h.devices| ensures Holds(g.devices[i], g.remote.ids) {
      assert i in [last] + back;
      assert Holds(g.devices[i], h.remote.ids);
    }
  }

  /** After a first sweep all are settled, and the last to sync holds what the remote holds. */
  lemma {:induction false} EveryoneOnce(f: Fleet, front: seq<nat>, last: nat)
    requires Readable(f) && f.devices != [] && AllIn(|f.devices|, front + [last])
    ensures var h := Rounds(f, front + [last]);
            && Readable(h) && h.remote.List? && SELF_PLUGIN_ID in h.remote.ids
            && (forall i | 0 <= i < |f.devices| :: Settled(h.devices[i]))
            && (last < |f.devices| ==> Holds(h.devices[last], h.remote.ids))
  {
    FirstSweep(f, front + [last], {});
    assert 0 in front + [last];
    LastRound(f, front, last);
    if last < |f.devices| {
      FirstSweep(f, front, {});
      RoundSettles(Rounds(f, front), last);
    }
  }

  /** The round with which the last device joins in. */
  lemma {:induction false} LastNewcomer(n: nat, schedule: seq<nat>) returns (p: nat)
    requires n > 0 && AllIn(n, schedule)
    ensures 0 < p <= |schedule| && AllIn(n, schedule[..p]) && schedule[p - 1] < n && schedule[p - 1] !in schedule[..p - 1]
    decreases |schedule|
  {
    assert 0 in schedule;
    var front := schedule[..|schedule| - 1];
    assert schedule == front + [schedule[|schedule| - 1]];
    if AllIn(n, front) {
      p := LastNewcomer(n, front);
      assert front[..p] == schedule[..p] && front[..p - 1] == schedule[..p - 1];
    } else {
      p := |schedule|;
      assert schedule[..p] == schedule;
      var i :| 0 <= i < n && i !in front;
      assert i in schedule;
    }
  }

  /** While the one device that has `id` has not synced, nobody else gets it. */
  lemma {:induction false} NobodyHearsOf(f: Fleet, schedule: seq<nat>, owner: nat, id: string)
    requires Readable(f) && f.remote.List? && id !in f.remote.ids && id != SELF_PLUGIN_ID && owner !in schedule
    requires forall i | 0 <= i < |f.devices| && i != owner :: id !in IdsOf(f.devices[i].local) && id !in IdsOf(f.devices[i].base)
    ensures forall i | 0 <= i < |f.devices| && i != owner :: id !in IdsOf(Rounds(f, schedule).devices[i].local)
    decreases |schedule|
  {
    if schedule != [] {
      var i := schedule[0];
      assert schedule == [i] + schedule[1..];
      if i < |f.devices| {
        RoundSettles(f, i);
        RoundDecides(f, i, id);
      }
      NobodyHearsOf(Round(f, i), schedule[1..], owner, id);
    }
  }

  /** One device has a plugin, nobody has a base, the remote list is empty. */
  function OneInstall(n: nat, owner: nat, id: string): Fleet {
    Fleet(List([]), seq(n, i => Device(List(if i == owner then [id] else []), Absent)))
  }

  /** Otherwise the plugin of the last newcomer misses whoever does not sync from then on. */
  lemma NotEnoughDiverges(n: nat, schedule: seq<nat>, id: string) returns (f: Fleet)
    requires n > 0 && !Enough(n, schedule) && id != SELF_PLUGIN_ID
    ensures Readable(f) && |f.devices| == n && !Converged(Rounds(f, schedule))
  {
    if !AllIn(n, schedule) {
      f := OneInstall(n, 0, id);
      var i :| 0 <= i < n && i !in schedule;
      Untouched(f, schedule, i);
    } else {
      var p := LastNewcomer(n, schedule);
      var owner := schedule[p - 1];
      f := OneInstall(n, owner, id);
      assert !EnoughAt(n, schedule, p);
      var j :| 0 <= j < n && j !in schedule[p - 1..];
      assert schedule == schedule[..p - 1] + schedule[p - 1..] && schedule[p - 1..][0] == owner;
      RoundsConcat(f, schedule[..p - 1], schedule[p - 1..]);
      NobodyHearsOf(f, schedule[..p - 1], owner, id);
      Untouched(Rounds(f, schedule[..p - 1]), schedule[p - 1..], j);
      LastNewsDecides(f, schedule, id);
      assert HasLastWord(f, schedule, id, owner);
    }
  }

  /**
   Exactly when a schedule is enough. Every readable fleet of `n` devices agrees after it if and only
   if by some round everyone has synced and everyone syncs again from that round on.
   */
  lemma {:induction false} ScheduleIsEnough(n: nat, schedule: seq<nat>)
    requires n > 0
    ensures (forall f: Fleet | Readable(f) && |f.devices| == n :: Converged(Rounds(f, schedule))) <==> Enough(n, schedule)
  {
    if Enough(n, schedule) {
      var p :| EnoughAt(n, schedule, p);
      forall f: Fleet | Readable(f) && |f.devices| == n ensures Converged(Rounds(f, schedule)) {
        EnoughConverges(f, schedule, p);
      }
    } else {
      var f := NotEnoughDiverges(n, schedule, "other");
    }
  }
}
