/**
 The enabled-plugin list as many devices share it: a three-way merge against a private base,
 one shared remote list, and rounds of pull-then-push in any order.
 */
module PluginSync {
  import opened Lru

  const SELF_PLUGIN_ID := "remote-ssh"

  type Ids = seq<string>

  // ---------------------------------------------------------------- the merge

  /** In the base, but gone from a side that once had it. */
  predicate Removed(local: Ids, remote: Ids, base: Option<Ids>, required: string, id: string) {
    base.Some? && id in base.value && (id !in local || id !in remote) && id != required
  }

  /** First occurrences, in order, of what is not removed and not seen before. */
  function Pick(ids: Ids, local: Ids, remote: Ids, base: Option<Ids>, required: string): Ids {
    if ids == [] then []
    else
      var front := Pick(ids[..|ids| - 1], local, remote, base, required);
      var id := ids[|ids| - 1];
      if Removed(local, remote, base, required, id) || id in front then front else front + [id]
  }

  function Merge(local: Ids, remote: Ids, base: Option<Ids>, required: string): Ids {
    Pick(local + remote + [required], local, remote, base, required)
  }

  method MergePluginIds(local: Ids, remote: Ids, base: Option<Ids>, required: string) returns (out: Ids)
    ensures out == Merge(local, remote, base, required)
  {
    var removed: set<string> := {};
    if base.Some? {
      var inLocal := set id | id in local;
      var inRemote := set id | id in remote;
      for k := 0 to |base.value|
        invariant removed == set id | id in base.value[..k] && (id !in inLocal || id !in inRemote)
      {
        var id := base.value[k];
        assert base.value[..k + 1] == base.value[..k] + [id];
        if id !in inLocal || id !in inRemote { removed := removed + {id}; }
      }
      assert base.value[..|base.value|] == base.value;
    }
    removed := removed - {required};
    assert forall id :: id in removed <==> Removed(local, remote, base, required, id);
    out := [];
    var seen: set<string> := {};
    var all := local + remote + [required];
    for k := 0 to |all|
      invariant out == Pick(all[..k], local, remote, base, required)
      invariant forall id :: id in seen <==> id in out
    {
      var id := all[k];
      assert all[..k + 1][..k] == all[..k];
      if !(id in removed || id in seen) {
        seen := seen + {id};
        out := out + [id];
      }
    }
    assert all[..|all|] == all;
  }

  ghost predicate NoDup(ids: Ids) {
    forall i, j | 0 <= i < j < |ids| :: ids[i] != ids[j]
  }

  lemma {:induction false} PickMembers(ids: Ids, local: Ids, remote: Ids, base: Option<Ids>, required: string)
    ensures var p := Pick(ids, local, remote, base, required);
            && NoDup(p)
            && forall id :: id in p <==> id in ids && !Removed(local, remote, base, required, id)
  {
    if ids != [] {
      PickMembers(ids[..|ids| - 1], local, remote, base, required);
      assert ids == ids[..|ids| - 1] + [ids[|ids| - 1]];
    }
  }

  /**
   Conservation: an id is in the merge exactly when some side has it (or it is the required one)
   and it is not a removal. So an id vanishes only if it was in the base and is missing from a side.
   */
  lemma MergeConserves(local: Ids, remote: Ids, base: Option<Ids>, required: string)
    ensures var m := Merge(local, remote, base, required);
            && NoDup(m) && required in m
            && (forall id :: id in m <==> (id in local || id in remote || id == required) && !Removed(local, remote, base, required, id))
            && (base == None ==> forall id | id in local || id in remote :: id in m)
  {
    PickMembers(local + remote + [required], local, remote, base, required);
    assert required in local + remote + [required];
  }

  lemma {:induction false} PickKeepsClean(ids: Ids, local: Ids, remote: Ids, base: Option<Ids>, required: string)
    requires NoDup(ids) && forall id | id in ids :: !Removed(local, remote, base, required, id)
    ensures Pick(ids, local, remote, base, required) == ids
  {
    if ids != [] {
      var front := ids[..|ids| - 1];
      assert ids == front + [ids[|ids| - 1]];
      PickKeepsClean(front, local, remote, base, required);
    }
  }

  lemma {:induction false} PickRestAddsNothing(ids: Ids, rest: Ids, local: Ids, remote: Ids, base: Option<Ids>, required: string)
    requires var p := Pick(ids, local, remote, base, required);
             forall id | id in rest :: id in p || Removed(local, remote, base, required, id)
    ensures Pick(ids + rest, local, remote, base, required) == Pick(ids, local, remote, base, required)
  {
    if rest == [] {
      assert ids + rest == ids;
    } else {
      var front := rest[..|rest| - 1];
      assert rest == front + [rest[|rest| - 1]];
      PickRestAddsNothing(ids, front, local, remote, base, required);
      assert (ids + rest)[..|ids + rest| - 1] == ids + front;
    }
  }

  /** Merging again over the same base changes nothing, not even the order. */
  lemma MergeIdempotent(local: Ids, remote: Ids, base: Option<Ids>, required: string)
    ensures var m := Merge(local, remote, base, required);
            Merge(m, remote, base, required) == m
  {
    var m := Merge(local, remote, base, required);
    MergeConserves(local, remote, base, required);
    PickKeepsClean(m, m, remote, base, required);
    PickRestAddsNothing(m, remote + [required], m, remote, base, required);
    assert m + remote + [required] == m + (remote + [required]);
  }

  lemma {:induction false} PickExtends(ids: Ids, rest: Ids, local: Ids, remote: Ids, base: Option<Ids>, required: string)
    ensures Pick(ids, local, remote, base, required) <= Pick(ids + rest, local, remote, base, required)
  {
    if rest == [] {
      assert ids + rest == ids;
    } else {
      PickExtends(ids, rest[..|rest| - 1], local, remote, base, required);
      assert (ids + rest)[..|ids + rest| - 1] == ids + rest[..|rest| - 1];
    }
  }

  /** The local list comes first, in its own order, and what the remote adds follows. */
  lemma MergeKeepsLocalOrder(local: Ids, remote: Ids, base: Option<Ids>, required: string)
    requires NoDup(local) && forall id | id in local :: !Removed(local, remote, base, required, id)
    ensures local <= Merge(local, remote, base, required)
  {
    PickKeepsClean(local, local, remote, base, required);
    PickExtends(local, remote + [required], local, remote, base, required);
    assert local + remote + [required] == local + (remote + [required]);
  }

  // ---------------------------------------------------------------- files and devices

  /** A list file: not there, there but not readable as an id array, or an id array. */
  datatype ListFile = Absent | Unreadable | List(ids: Ids)

  datatype Device = Device(local: ListFile, base: ListFile)

  function BaseOf(base: ListFile): Option<Ids> {
    if base.List? then Some(base.ids) else None
  }

  function IdsOf(local: ListFile): Ids {
    if local.List? then local.ids else []
  }

  function Pull(remote: ListFile, d: Device): Device {
    if d.local.Unreadable? then d
    else
      var local := IdsOf(d.local);
      var merged := if remote.List? then Merge(local, remote.ids, BaseOf(d.base), SELF_PLUGIN_ID)
                    else Merge(local, local, None, SELF_PLUGIN_ID);
      if merged != local then d.(local := List(merged)) else d
  }

  function PushedIds(remote: ListFile, d: Device): Ids {
    var local := IdsOf(d.local);
    if remote.List? then Merge(local, remote.ids, BaseOf(d.base), SELF_PLUGIN_ID)
    else Merge(local, local, None, SELF_PLUGIN_ID)
  }

  /** The remote list and the device after a push whose write, if one is needed, goes through or not. */
  function Push(remote: ListFile, d: Device, writeOk: bool): (ListFile, Device) {
    if d.local.Unreadable? || remote.Unreadable? then (remote, d)
    else
      var ids := PushedIds(remote, d);
      if remote == List(ids) then (remote, d.(base := List(ids)))
      else if writeOk then (List(ids), d.(base := List(ids)))
      else (remote, d)
  }

  /**
   What a push may leave in the base: what was there, or the list the remote holds now. It is the former
   whenever the remote still lacks the merged list: something was unreadable, or the write failed.
   */
  ghost predicate BaseIsHonest(remote: ListFile, d: Device, remote': ListFile, d': Device, writeOk: bool) {
    && d'.local == d.local
    && (d'.base == d.base || d'.base == remote')
    && (d.local.Unreadable? || remote.Unreadable? ==> remote' == remote && d' == d)
    && (!writeOk ==> remote' == remote)
    && (remote' != remote ==> remote'.List? && d'.base == remote')
    && (remote' == remote && d'.base != d.base ==> remote == List(PushedIds(remote, d)))
    && (writeOk && !d.local.Unreadable? && !remote.Unreadable? ==> d'.base == remote' == List(PushedIds(remote, d)))
  }

  lemma PushedBase(remote: ListFile, d: Device, writeOk: bool)
    ensures var (remote', d') := Push(remote, d, writeOk); BaseIsHonest(remote, d, remote', d', writeOk)
  {
  }

  class RemoteStore {
    var list: ListFile

    constructor (list: ListFile)
      ensures this.list == list
    {
      this.list := list;
    }
  }

  /** One machine's files. */
  class Workspace {
    var local: ListFile
    var base: ListFile

    constructor (local: ListFile, base: ListFile)
      ensures this.local == local && this.base == base
    {
      this.local, this.base := local, base;
    }

    ghost function Now(): Device
      reads this
    {
      Device(local, base)
    }

    method PullCommunityPlugins(store: RemoteStore) returns (pulled: bool)
      modifies this`local
      ensures Now() == Pull(store.list, old(Now()))
      ensures pulled <==> !old(local).Unreadable? && store.list.List?
    {
      if local.Unreadable? { return false; }
      var ids := if local.List? then local.ids else [];
      var base := BaseOf(base);
      var merged;
      if store.list.List? {
        merged := MergePluginIds(ids, store.list.ids, base, SELF_PLUGIN_ID);
      } else {
        merged := MergePluginIds(ids, ids, None, SELF_PLUGIN_ID);
      }
      if merged != ids { local := List(merged); }
      return store.list.List?;
    }

    method PushCommunityPlugins(store: RemoteStore, writeOk: bool) returns (pushed: bool)
      modifies this`base, store
      ensures (store.list, Now()) == Push(old(store.list), old(Now()), writeOk)
      ensures pushed <==> store.list != old(store.list)
      ensures BaseIsHonest(old(store.list), old(Now()), store.list, Now(), writeOk)
    {
      PushedBase(store.list, Now(), writeOk);
      if local.Unreadable? { return false; }
      if store.list.Unreadable? { return false; }
      var mine := if local.List? then local.ids else [];
      var baseIds := BaseOf(base);
      var ids;
      if store.list.List? {
        ids := MergePluginIds(mine, store.list.ids, baseIds, SELF_PLUGIN_ID);
      } else {
        ids := MergePluginIds(mine, mine, None, SELF_PLUGIN_ID);
      }
      if store.list.List? && store.list.ids == ids {
        base := List(ids);
        return false;
      }
      if !writeOk { return false; }
      store.list := List(ids);
      base := List(ids);
      return true;
    }
  }

  /** Any number of pulls before the connect sync make no difference to it. */
  lemma {:induction false} ExtraPullsAreFree(remote: ListFile, d: Device, n: nat)
    ensures Pull(remote, Pulls(remote, d, n)) == Pull(remote, d)
  {
    if n > 0 {
      ExtraPullsAreFree(remote, d, n - 1);
      PullTwice(remote, Pulls(remote, d, n - 1));
    }
  }

  function Pulls(remote: ListFile, d: Device, n: nat): Device {
    if n == 0 then d else Pull(remote, Pulls(remote, d, n - 1))
  }

  /** A pull leaves exactly the merged list. */
  lemma PullGives(remote: ListFile, d: Device)
    requires !d.local.Unreadable?
    ensures Pull(remote, d) == d.(local := List(PushedIds(remote, d))) && SELF_PLUGIN_ID in PushedIds(remote, d)
  {
    if remote.List? {
      MergeConserves(IdsOf(d.local), remote.ids, BaseOf(d.base), SELF_PLUGIN_ID);
    } else {
      MergeConserves(IdsOf(d.local), IdsOf(d.local), None, SELF_PLUGIN_ID);
    }
  }

  /** A list that could not be read has no say: a pull never touches the base, nor a local list it could not read, and loses nothing to a remote it has not seen. */
  lemma UnreadHasNoSay(remote: ListFile, d: Device)
    ensures Pull(remote, d).base == d.base
    ensures d.local.Unreadable? ==> Pull(remote, d) == d
    ensures !d.local.Unreadable? && !remote.List? ==>
              Pull(remote, d).local.List? && forall id :: id in Pull(remote, d).local.ids <==> id in IdsOf(d.local) || id == SELF_PLUGIN_ID
  {
    if !d.local.Unreadable? {
      PullGives(remote, d);
      MergeConserves(IdsOf(d.local), IdsOf(d.local), None, SELF_PLUGIN_ID);
    }
  }

  /** Merging the merged list again changes nothing. */
  lemma MergedAgain(remote: ListFile, d: Device)
    ensures PushedIds(remote, d.(local := List(PushedIds(remote, d)))) == PushedIds(remote, d)
  {
    if remote.List? {
      MergeIdempotent(IdsOf(d.local), remote.ids, BaseOf(d.base), SELF_PLUGIN_ID);
    } else {
      SelfMerge(PushedIds(remote, d), IdsOf(d.local));
    }
  }

  lemma PullTwice(remote: ListFile, d: Device)
    ensures Pull(remote, Pull(remote, d)) == Pull(remote, d)
  {
    if !d.local.Unreadable? {
      PullGives(remote, d);
      PullGives(remote, d.(local := List(PushedIds(remote, d))));
      MergedAgain(remote, d);
    }
  }

  lemma SelfMerge(m: Ids, local: Ids)
    requires m == Merge(local, local, None, SELF_PLUGIN_ID)
    ensures Merge(m, m, None, SELF_PLUGIN_ID) == m
  {
    MergeConserves(local, local, None, SELF_PLUGIN_ID);
    PickKeepsClean(m, m, m, None, SELF_PLUGIN_ID);
    PickRestAddsNothing(m, m + [SELF_PLUGIN_ID], m, m, None, SELF_PLUGIN_ID);
    assert m + m + [SELF_PLUGIN_ID] == m + (m + [SELF_PLUGIN_ID]);
  }

  /** A device with no base removes nothing from the remote. */
  lemma NoBaseRemovesNothing(remote: ListFile, d: Device, writeOk: bool)
    requires !d.base.List? && remote.List?
    ensures var (remote', _) := Push(remote, d, writeOk);
            remote'.List? && forall id | id in remote.ids :: id in remote'.ids
  {
    MergeConserves(IdsOf(d.local), remote.ids, BaseOf(d.base), SELF_PLUGIN_ID);
  }

  // ---------------------------------------------------------------- the fleet

  datatype Fleet = Fleet(remote: ListFile, devices: seq<Device>)

  /** The connect sync of one device: pull, then push. An index that names no device does nothing. */
  function Round(f: Fleet, i: nat): (g: Fleet)
    ensures |g.devices| == |f.devices|
  {
    Try(f, Attempt(i, true))
  }

  /** A connect sync whose push, if it has to write, gets through or not. */
  datatype Attempt = Attempt(device: nat, writeOk: bool)

  function Try(f: Fleet, a: Attempt): (g: Fleet)
    ensures |g.devices| == |f.devices|
  {
    if a.device >= |f.devices| then f
    else
      var pulled := Pull(f.remote, f.devices[a.device]);
      var (remote, pushed) := Push(f.remote, pulled, a.writeOk);
      Fleet(remote, f.devices[a.device := pushed])
  }

  function Tries(f: Fleet, schedule: seq<Attempt>): (r: Fleet)
    ensures |r.devices| == |f.devices|
    decreases |schedule|
  {
    if schedule == [] then f else Tries(Try(f, schedule[0]), schedule[1..])
  }

  function Rounds(f: Fleet, schedule: seq<nat>): (r: Fleet)
    ensures |r.devices| == |f.devices|
    decreases |schedule|
  {
    if schedule == [] then f else Rounds(Round(f, schedule[0]), schedule[1..])
  }

  ghost predicate Readable(f: Fleet) {
    !f.remote.Unreadable? && forall i | 0 <= i < |f.devices| :: !f.devices[i].local.Unreadable?
  }

  /** Local list and base agree, as sets; the device has nothing to say. */
  ghost predicate Settled(d: Device) {
    d.local.List? && d.base.List? && SameIds(d.local.ids, d.base.ids)
  }

  ghost predicate SameIds(x: Ids, y: Ids) {
    forall id :: id in x <==> id in y
  }

  /** After its round a device, its base and the remote hold one and the same list. */
  lemma RoundSettles(f: Fleet, i: nat)
    requires Readable(f) && i < |f.devices|
    ensures var g := Round(f, i);
            && Readable(g) && g.remote.List? && SELF_PLUGIN_ID in g.remote.ids
            && g.devices[i] == Device(g.remote, g.remote) && Settled(g.devices[i])
            && (forall j | 0 <= j < |f.devices| && j != i :: g.devices[j] == f.devices[j])
  {
    PullThenPush(f.remote, f.devices[i]);
  }

  lemma PullThenPush(remote: ListFile, d: Device)
    requires !remote.Unreadable? && !d.local.Unreadable?
    ensures var ids := PushedIds(remote, d);
            && SELF_PLUGIN_ID in ids
            && Push(remote, Pull(remote, d), true) == (List(ids), Device(List(ids), List(ids)))
  {
    PullGives(remote, d);
    MergedAgain(remote, d);
  }

  /** What ids a round leaves on the remote. */
  lemma RoundIds(f: Fleet, i: nat)
    requires Readable(f) && i < |f.devices|
    ensures var g, d := Round(f, i), f.devices[i];
            g.remote.List? && forall id :: id in g.remote.ids <==>
              if f.remote.List? then
                (id in IdsOf(d.local) || id in f.remote.ids || id == SELF_PLUGIN_ID)
                && !Removed(IdsOf(d.local), f.remote.ids, BaseOf(d.base), SELF_PLUGIN_ID, id)
              else id in IdsOf(d.local) || id == SELF_PLUGIN_ID
  {
    var d := f.devices[i];
    PullThenPush(f.remote, d);
    if f.remote.List? {
      MergeConserves(IdsOf(d.local), f.remote.ids, BaseOf(d.base), SELF_PLUGIN_ID);
    } else {
      MergeConserves(IdsOf(d.local), IdsOf(d.local), None, SELF_PLUGIN_ID);
    }
  }

  /** The key step: a settled device adopts the remote and leaves it as it is. */
  lemma SettledRoundKeepsRemote(f: Fleet, i: nat)
    requires Readable(f) && i < |f.devices| && Settled(f.devices[i])
    requires f.remote.List? && SELF_PLUGIN_ID in f.remote.ids
    ensures Round(f, i).remote.List? && SameIds(Round(f, i).remote.ids, f.remote.ids)
  {
    RoundIds(f, i);
  }

  /** Whoever has had a round is settled, and once somebody has, the remote holds a list. */
  ghost predicate Swept(f: Fleet, done: set<nat>) {
    && Readable(f)
    && (forall i | i in done :: i < |f.devices| && Settled(f.devices[i]))
    && (done != {} ==> f.remote.List? && SELF_PLUGIN_ID in f.remote.ids)
  }

  lemma SweptRound(f: Fleet, done: set<nat>, i: nat)
    requires Swept(f, done) && i < |f.devices|
    ensures Swept(Round(f, i), done + {i})
  {
    RoundSettles(f, i);
  }

  /** First sweep: whoever has had a round is settled, and stays so. */
  lemma {:induction false} FirstSweep(f: Fleet, schedule: seq<nat>, done: set<nat>)
    requires Swept(f, done)
    ensures var g := Rounds(f, schedule);
            && Readable(g)
            && (forall i | 0 <= i < |f.devices| && (i in done || i in schedule) :: Settled(g.devices[i]))
            && (done != {} || (exists i :: 0 <= i < |f.devices| && i in schedule) ==> g.remote.List? && SELF_PLUGIN_ID in g.remote.ids)
    decreases |schedule|
  {
    if schedule != [] {
      var i := schedule[0];
      assert schedule == [i] + schedule[1..];
      if i < |f.devices| {
        SweptRound(f, done, i);
        FirstSweep(Round(f, i), schedule[1..], done + {i});
      } else {
        FirstSweep(f, schedule[1..], done);
      }
    }
  }

  ghost predicate Holds(d: Device, ids: Ids) {
    d.local.List? && d.base.List? && SameIds(d.local.ids, ids) && SameIds(d.base.ids, ids)
  }

  /** Second sweep: the remote no longer changes, and every device that has a round takes it over. */
  lemma {:induction false} SecondSweep(f: Fleet, schedule: seq<nat>, done: set<nat>, ids: Ids)
    requires Readable(f)
    requires forall i | 0 <= i < |f.devices| :: Settled(f.devices[i])
    requires f.remote.List? && SELF_PLUGIN_ID in f.remote.ids && SameIds(f.remote.ids, ids)
    requires forall i | i in done :: i < |f.devices| && Holds(f.devices[i], ids)
    ensures var g := Rounds(f, schedule);
            && g.remote.List? && SameIds(g.remote.ids, ids)
            && forall i | 0 <= i < |f.devices| && (i in done || i in schedule) :: Holds(g.devices[i], ids)
    decreases |schedule|
  {
    if schedule != [] {
      var i := schedule[0];
      assert schedule == [i] + schedule[1..];
      if i < |f.devices| {
        RoundSettles(f, i);
        SettledRoundKeepsRemote(f, i);
        SecondSweep(Round(f, i), schedule[1..], done + {i}, ids);
      } else {
        SecondSweep(f, schedule[1..], done, ids);
      }
    }
  }

  lemma {:induction false} RoundsConcat(f: Fleet, x: seq<nat>, y: seq<nat>)
    ensures Rounds(f, x + y) == Rounds(Rounds(f, x), y)
    decreases |x|
  {
    if x == [] {
      assert x + y == y;
    } else {
      RoundsConcat(Round(f, x[0]), x[1..], y);
      assert (x + y)[1..] == x[1..] + y;
    }
  }

  /**
   Convergence. Any number of devices, any readable lists and bases, any remote; once edits stop, a
   schedule in which every device syncs and then every device syncs again, in any orders and with any
   repeats, leaves all local lists, all bases and the remote equal as sets.
   */
  lemma {:induction false} FleetConverges(f: Fleet, first: seq<nat>, second: seq<nat>)
    requires Readable(f) && f.devices != []
    requires forall i | 0 <= i < |f.devices| :: i in first && i in second
    ensures var g := Rounds(f, first + second);
            && g.remote.List? && Rounds(f, first).remote.List? && SameIds(g.remote.ids, Rounds(f, first).remote.ids)
            && forall i | 0 <= i < |f.devices| :: Holds(g.devices[i], g.remote.ids)
  {
    var h := Rounds(f, first);
    RoundsConcat(f, first, second);
    assert 0 in first;
    FirstSweep(f, first, {});
    SettledConverge(h, second);
  }

  lemma {:induction false} SettledConverge(h: Fleet, second: seq<nat>)
    requires Readable(h) && h.remote.List? && SELF_PLUGIN_ID in h.remote.ids
    requires forall i | 0 <= i < |h.devices| :: Settled(h.devices[i]) && i in second
    ensures var g := Rounds(h, second);
            && g.remote.List? && SameIds(g.remote.ids, h.remote.ids)
            && forall i | 0 <= i < |h.devices| :: Holds(g.devices[i], g.remote.ids)
  {
    SecondSweep(h, second, {}, h.remote.ids);
  }

  // ---------------------------------------------------------------- what the fleet agrees on

  /** Nobody has uninstalled `id`, and the remote has it unless nobody has synced it yet. */
  ghost predicate Wanted(f: Fleet, id: string) {
    && (forall i | 0 <= i < |f.devices| :: id in IdsOf(f.devices[i].base) ==> id in IdsOf(f.devices[i].local))
    && ((f.remote.List? && id in f.remote.ids) || forall i | 0 <= i < |f.devices| :: id !in IdsOf(f.devices[i].base))
  }

  /** An install nobody has revoked survives every schedule, and reaches the remote with its device's first round. */
  lemma {:induction false} InstallSurvives(f: Fleet, schedule: seq<nat>, id: string)
    requires Readable(f)
    requires Wanted(f, id)
    requires (f.remote.List? && id in f.remote.ids) || exists i :: 0 <= i < |f.devices| && i in schedule && id in IdsOf(f.devices[i].local)
    ensures var g := Rounds(f, schedule);
            Wanted(g, id) && g.remote.List? && id in g.remote.ids
    decreases |schedule|
  {
    if schedule != [] {
      var i := schedule[0];
      assert schedule == [i] + schedule[1..];
      if i < |f.devices| {
        RoundSettles(f, i);
        RoundIds(f, i);
      }
      var g := Round(f, i);
      assert Wanted(g, id);
      InstallSurvives(g, schedule[1..], id);
    }
  }

  /** Every device that has `id` knows that the others had it too. */
  ghost predicate OldNews(f: Fleet, id: string) {
    forall i | 0 <= i < |f.devices| :: id in IdsOf(f.devices[i].local) ==> f.devices[i].base.List? && id in f.devices[i].base.ids
  }

  /** An uninstall that no other device's install crosses leaves the remote with its device's round, for good. */
  lemma {:induction false} UninstallPropagates(f: Fleet, schedule: seq<nat>, id: string)
    requires Readable(f)
    requires id != SELF_PLUGIN_ID && OldNews(f, id) && f.remote.List?
    requires id !in f.remote.ids ||
             exists i :: 0 <= i < |f.devices| && i in schedule && id !in IdsOf(f.devices[i].local) && f.devices[i].base.List? && id in f.devices[i].base.ids
    ensures var g := Rounds(f, schedule);
            OldNews(g, id) && g.remote.List? && id !in g.remote.ids
    decreases |schedule|
  {
    if schedule != [] {
      var i := schedule[0];
      assert schedule == [i] + schedule[1..];
      if i < |f.devices| {
        RoundSettles(f, i);
        RoundIds(f, i);
      }
      var g := Round(f, i);
      UninstallPropagates(g, schedule[1..], id);
    }
  }

  // ---------------------------------------------------------------- pushes that fail

  /** A failed write leaves the remote and the base alone; the pull before it has still merged the local list. */
  lemma FailedTry(f: Fleet, i: nat)
    requires Readable(f) && i < |f.devices|
    ensures var g, d := Try(f, Attempt(i, false)), f.devices[i];
            && Readable(g) && g.remote == f.remote
            && g.devices[i].local == List(PushedIds(f.remote, d))
            && g.devices[i].base == (if f.remote == List(PushedIds(f.remote, d)) then f.remote else d.base)
            && (forall j | 0 <= j < |f.devices| && j != i :: g.devices[j] == f.devices[j])
  {
    PullGives(f.remote, f.devices[i]);
    MergedAgain(f.remote, f.devices[i]);
  }

  /** What ids a device holds once it has pulled. */
  lemma MergedIds(remote: ListFile, d: Device, id: string)
    ensures id in PushedIds(remote, d) <==>
              if remote.List? then
                (id in IdsOf(d.local) || id in remote.ids || id == SELF_PLUGIN_ID)
                && !Removed(IdsOf(d.local), remote.ids, BaseOf(d.base), SELF_PLUGIN_ID, id)
              else id in IdsOf(d.local) || id == SELF_PLUGIN_ID
  {
    if remote.List? {
      MergeConserves(IdsOf(d.local), remote.ids, BaseOf(d.base), SELF_PLUGIN_ID);
    } else {
      MergeConserves(IdsOf(d.local), IdsOf(d.local), None, SELF_PLUGIN_ID);
    }
  }

  lemma WantedKept(f: Fleet, a: Attempt, id: string)
    requires Readable(f) && Wanted(f, id)
    ensures Readable(Try(f, a)) && Wanted(Try(f, a), id)
    ensures f.remote.List? && id in f.remote.ids ==> Try(f, a).remote.List? && id in Try(f, a).remote.ids
    ensures forall i | 0 <= i < |f.devices| && id in IdsOf(f.devices[i].local) :: id in IdsOf(Try(f, a).devices[i].local)
    ensures a.writeOk && a.device < |f.devices| && id in IdsOf(f.devices[a.device].local) ==>
              Try(f, a).remote.List? && id in Try(f, a).remote.ids
  {
    var i := a.device;
    if i < |f.devices| {
      MergedIds(f.remote, f.devices[i], id);
      if a.writeOk {
        assert Try(f, a) == Round(f, i);
        RoundSettles(f, i);
        PullThenPush(f.remote, f.devices[i]);
      } else {
        FailedTry(f, i);
      }
    }
  }

  /**
   Whichever pushes fail, and however often: an install nobody has revoked is never lost, neither locally nor
   on the remote, and it is on the remote once a push of a device that has it gets through.
   */
  lemma {:induction false} InstallSurvivesFailures(f: Fleet, schedule: seq<Attempt>, id: string)
    requires Readable(f) && Wanted(f, id)
    ensures var g := Tries(f, schedule);
            && Wanted(g, id)
            && (forall i | 0 <= i < |f.devices| && id in IdsOf(f.devices[i].local) :: id in IdsOf(g.devices[i].local))
            && ((f.remote.List? && id in f.remote.ids)
                || (exists a :: a in schedule && a.writeOk && a.device < |f.devices| && id in IdsOf(f.devices[a.device].local))
                ==> g.remote.List? && id in g.remote.ids)
    decreases |schedule|
  {
    if schedule != [] {
      assert schedule == [schedule[0]] + schedule[1..];
      WantedKept(f, schedule[0], id);
      InstallSurvivesFailures(Try(f, schedule[0]), schedule[1..], id);
    }
  }

  lemma {:induction false} TriesReadable(f: Fleet, schedule: seq<Attempt>)
    requires Readable(f)
    ensures Readable(Tries(f, schedule))
    decreases |schedule|
  {
    if schedule != [] {
      var a := schedule[0];
      if a.device < |f.devices| {
        if a.writeOk { RoundSettles(f, a.device); assert Try(f, a) == Round(f, a.device); } else { FailedTry(f, a.device); }
      }
      TriesReadable(Try(f, a), schedule[1..]);
    }
  }

  /** Whatever went wrong before, two sweeps whose pushes get through make all lists equal. */
  lemma {:induction false} ConvergesAfterFailures(f: Fleet, before: seq<Attempt>, first: seq<nat>, second: seq<nat>)
    requires Readable(f) && f.devices != []
    requires forall i | 0 <= i < |f.devices| :: i in first && i in second
    ensures var g := Rounds(Tries(f, before), first + second);
            g.remote.List? && forall i | 0 <= i < |f.devices| :: Holds(g.devices[i], g.remote.ids)
  {
    TriesReadable(f, before);
    FleetConverges(Tries(f, before), first, second);
  }

  /** Device 0 has uninstalled "x"; device 1, on its first sync, has installed "y". */
  function Crossing(): Fleet {
    Fleet(List(["x", SELF_PLUGIN_ID]),
          [Device(List([SELF_PLUGIN_ID]), List(["x", SELF_PLUGIN_ID])), Device(List(["y"]), Absent)])
  }

  /**
   An uninstall does not survive as an install does. Without failures it leaves the remote for good; if the
   first push of the other device fails, that device has pulled "x" without a base that says so, takes it
   for an install of its own, and its next sync puts it back.
   */
  lemma FailedPushUndoesUninstall()
    ensures var f := Crossing();
            var clean := Tries(f, [Attempt(1, true), Attempt(0, true), Attempt(1, true)]);
            var failed := Tries(f, [Attempt(1, false), Attempt(0, true), Attempt(1, true)]);
            && clean.remote.List? && "x" !in clean.remote.ids
            && failed.remote.List? && "x" in failed.remote.ids
  {
    var f := Crossing();
    ThreeTries(f, Attempt(1, true), Attempt(0, true), Attempt(1, true));
    ThreeTries(f, Attempt(1, false), Attempt(0, true), Attempt(1, true));
    CrossingStart(f);
    UndoneAfter(Try(f, Attempt(1, false)), false);
    UndoneAfter(Try(f, Attempt(1, true)), true);
  }

  lemma {:induction false} ThreeTries(f: Fleet, a: Attempt, b: Attempt, c: Attempt)
    ensures Tries(f, [a, b, c]) == Try(Try(Try(f, a), b), c)
  {
    assert [a, b, c][1..] == [b, c] && [b, c][1..] == [c] && [c][1..] == [];
    assert Tries(Try(Try(f, a), b), [c]) == Tries(Try(Try(Try(f, a), b), c), []);
    assert Tries(Try(f, a), [b, c]) == Tries(Try(Try(f, a), b), [c]);
  }

  /** Device 0 is about to propagate its uninstall of "x", which device 1 holds, with a base that says so or without one. */
  ghost predicate AboutToPropagate(g: Fleet, known: bool) {
    && Readable(g) && |g.devices| == 2 && g.remote.List? && "x" in g.remote.ids
    && "x" !in IdsOf(g.devices[0].local) && g.devices[0].base.List? && "x" in g.devices[0].base.ids
    && "x" in IdsOf(g.devices[1].local)
    && (if known then g.devices[1].base.List? && "x" in g.devices[1].base.ids else g.devices[1].base.Absent?)
  }

  lemma CrossingStart(f: Fleet)
    requires f == Crossing()
    ensures AboutToPropagate(Try(f, Attempt(1, true)), true) && AboutToPropagate(Try(f, Attempt(1, false)), false)
  {
    var d := f.devices[1];
    MergedIds(f.remote, d, "x");
    MergedIds(f.remote, d, "y");
    assert "x" != SELF_PLUGIN_ID && "y" != SELF_PLUGIN_ID && "y" !in f.remote.ids;
    FailedTry(f, 1);
    RoundSettles(f, 1);
    PullThenPush(f.remote, d);
    assert Round(f, 1) == Try(f, Attempt(1, true));
  }

  lemma UndoneAfter(g: Fleet, known: bool)
    requires AboutToPropagate(g, known)
    ensures var end := Try(Try(g, Attempt(0, true)), Attempt(1, true));
            end.remote.List? && ("x" in end.remote.ids <==> !known)
  {
    assert "x" != SELF_PLUGIN_ID;
    RoundSettles(g, 0);
    RoundIds(g, 0);
    RoundIds(Round(g, 0), 1);
    RoundSettles(Round(g, 0), 1);
    assert Round(g, 0) == Try(g, Attempt(0, true));
  }
}
