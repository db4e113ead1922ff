/**
 The least-recently-used store that both in-memory caches implement: a sequence of entries,
 oldest first. `ReadCache` keeps this order in a Map, `AncestorTracker` in access ticks.
 */
module Lru {

  datatype Option<+T> = None | Some(value: T)

  datatype Entry<V> = Entry(key: string, value: V, size: nat)

  function Total<V>(s: seq<Entry<V>>): nat {
    if s == [] then 0 else s[0].size + Total(s[1..])
  }

  ghost predicate Distinct<V>(s: seq<Entry<V>>) {
    forall i, j | 0 <= i < j < |s| :: s[i].key != s[j].key
  }

  function Lookup<V>(s: seq<Entry<V>>, key: string): Option<Entry<V>> {
    if s == [] then None
    else if s[0].key == key then Some(s[0])
    else Lookup(s[1..], key)
  }

  /** The keys one deletion takes: a single key, or a directory prefix. */
  datatype Victims = Only(key: string) | AtPrefix(prefix: string) {
    predicate Has(k: string) {
      match this
      case Only(key) => k == key
      case AtPrefix(prefix) =>
        var slash := if prefix != "" && prefix[|prefix| - 1] == '/' then prefix else prefix + "/";
        k == prefix || slash <= k
    }
  }

  /** Every entry `drop` leaves alone, in order. */
  function Without<V>(s: seq<Entry<V>>, drop: Victims): seq<Entry<V>> {
    if s == [] then []
    else if drop.Has(s[0].key) then Without(s[1..], drop)
    else [s[0]] + Without(s[1..], drop)
  }

  function Touch<V>(s: seq<Entry<V>>, key: string): seq<Entry<V>> {
    match Lookup(s, key)
    case None => s
    case Some(e) => Without(s, Only(key)) + [e]
  }

  /** Drop from the old end until the total is at most `target`. */
  function Evict<V>(s: seq<Entry<V>>, target: nat): seq<Entry<V>> {
    if Total(s) <= target then s else Evict(s[1..], target)
  }

  /** Insert as newest; over `cap`, evict down to `target`. */
  function Put<V>(s: seq<Entry<V>>, e: Entry<V>, cap: nat, target: nat): seq<Entry<V>> {
    var grown := Without(s, Only(e.key)) + [e];
    if Total(grown) > cap then Evict(grown, target) else grown
  }

  // ---------------------------------------------------------------- properties

  lemma {:induction false} TotalConcat<V>(s: seq<Entry<V>>, t: seq<Entry<V>>)
    ensures Total(s + t) == Total(s) + Total(t)
  {
    if s == [] {
      assert s + t == t;
    } else {
      TotalConcat(s[1..], t);
      assert (s + t)[1..] == s[1..] + t;
    }
  }

  lemma {:induction false} WithoutConcat<V>(s: seq<Entry<V>>, t: seq<Entry<V>>, drop: Victims)
    ensures Without(s + t, drop) == Without(s, drop) + Without(t, drop)
  {
    if s == [] {
      assert s + t == t;
    } else {
      WithoutConcat(s[1..], t, drop);
      assert (s + t)[0] == s[0] && (s + t)[1..] == s[1..] + t;
      var x, y := Without(s[1..], drop), Without(t, drop);
      if drop.Has(s[0].key) {
        assert Without(s + t, drop) == Without(s[1..] + t, drop);
      } else {
        assert Without(s + t, drop) == [s[0]] + (x + y) == ([s[0]] + x) + y;
      }
    }
  }

  /** What `Without` keeps comes from `s`, was not to be dropped, and has distinct keys still. */
  lemma {:induction false} WithoutMembers<V>(s: seq<Entry<V>>, drop: Victims)
    ensures forall j | 0 <= j < |Without(s, drop)| ::
              && !drop.Has(Without(s, drop)[j].key)
              && exists m :: 0 <= m < |s| && s[m] == Without(s, drop)[j]
    ensures Distinct(s) ==> Distinct(Without(s, drop))
  {
    if s != [] {
      WithoutMembers(s[1..], drop);
      var rest, all := Without(s[1..], drop), Without(s, drop);
      forall j | 0 <= j < |rest|
        ensures exists m :: 0 < m < |s| && s[m] == rest[j]
      {
        var m :| 0 <= m < |s[1..]| && s[1..][m] == rest[j];
        assert s[m + 1] == rest[j];
      }
      if !drop.Has(s[0].key) {
        assert all == [s[0]] + rest;
        forall j | 0 <= j < |all|
          ensures !drop.Has(all[j].key) && exists m :: 0 <= m < |s| && s[m] == all[j]
        {
          if j > 0 { assert all[j] == rest[j - 1]; } else { assert s[0] == all[0]; }
        }
      }
    }
  }

  lemma {:induction false} WithoutAbsent<V>(s: seq<Entry<V>>, key: string)
    requires Lookup(s, key) == None
    ensures Without(s, Only(key)) == s
  {
    if s != [] {
      WithoutAbsent(s[1..], key);
    }
  }

  lemma {:induction false} LookupMember<V>(s: seq<Entry<V>>, key: string)
    ensures Lookup(s, key).Some? <==> exists e :: e in s && e.key == key
    ensures Lookup(s, key).Some? ==> Lookup(s, key).value in s && Lookup(s, key).value.key == key
  {
    if s != [] {
      LookupMember(s[1..], key);
      assert s == [s[0]] + s[1..];
    }
  }

  lemma {:induction false} LookupConcat<V>(s: seq<Entry<V>>, t: seq<Entry<V>>, key: string)
    ensures Lookup(s + t, key) == if Lookup(s, key).Some? then Lookup(s, key) else Lookup(t, key)
  {
    if s == [] {
      assert s + t == t;
    } else {
      LookupConcat(s[1..], t, key);
      assert (s + t)[1..] == s[1..] + t;
    }
  }

  /** Removing by key looks like a map deletion from outside. */
  lemma {:induction false} LookupWithout<V>(s: seq<Entry<V>>, drop: Victims, key: string)
    ensures Lookup(Without(s, drop), key) == if drop.Has(key) then None else Lookup(s, key)
  {
    if s != [] {
      LookupWithout(s[1..], drop, key);
      var rest := Without(s[1..], drop);
      assert ([s[0]] + rest)[1..] == rest;
    }
  }

  /** Removing one key takes exactly its size off the total. */
  lemma {:induction false} RemoveOneTotal<V>(s: seq<Entry<V>>, key: string)
    requires Distinct(s)
    ensures Total(s) == Total(Without(s, Only(key))) +
                        (if Lookup(s, key).Some? then Lookup(s, key).value.size else 0)
  {
    if s != [] {
      assert Distinct(s[1..]);
      RemoveOneTotal(s[1..], key);
      var rest := Without(s[1..], Only(key));
      assert ([s[0]] + rest)[1..] == rest;
      if s[0].key == key {
        LookupMember(s[1..], key);
        WithoutAbsent(s[1..], key);
      }
    }
  }

  lemma {:induction false} WithoutTotal<V>(s: seq<Entry<V>>, drop: Victims)
    ensures Total(Without(s, drop)) <= Total(s)
  {
    if s != [] {
      WithoutTotal(s[1..], drop);
      var rest := Without(s[1..], drop);
      assert ([s[0]] + rest)[1..] == rest;
    }
  }

  /** Deleting in place: the first `k` entries have been judged and `i` of them kept. */
  ghost predicate Swept<V>(all: seq<Entry<V>>, k: nat, drop: Victims, now: seq<Entry<V>>, i: nat) {
    && k <= |all| && i <= |now|
    && now[..i] == Without(all[..k], drop)
    && now[i..] == all[k..]
  }

  lemma {:induction false} RemoveAtTotal<V>(s: seq<Entry<V>>, i: nat)
    requires i < |s|
    ensures Total(s[..i] + s[i + 1..]) == Total(s) - s[i].size
  {
    var before, after := s[..i], s[i + 1..];
    assert s == before + ([s[i]] + after);
    TotalConcat(before, [s[i]] + after);
    TotalConcat(before, after);
    assert ([s[i]] + after)[1..] == after;
  }

  lemma SweepStep<V>(all: seq<Entry<V>>, k: nat, drop: Victims, now: seq<Entry<V>>, i: nat)
    requires Swept(all, k, drop, now, i) && i < |now|
    ensures k < |all| && now[i] == all[k]
    ensures drop.Has(now[i].key) ==> Swept(all, k + 1, drop, now[..i] + now[i + 1..], i)
    ensures !drop.Has(now[i].key) ==> Swept(all, k + 1, drop, now, i + 1)
  {
    assert now[i..][0] == all[k..][0];
    var before, after := now[..i], now[i + 1..];
    assert after == all[k + 1..] by {
      assert after == now[i..][1..];
      assert all[k + 1..] == all[k..][1..];
    }
    assert Without(all[..k + 1], drop) == before + (if drop.Has(all[k].key) then [] else [all[k]]) by {
      WithoutConcat(all[..k], [all[k]], drop);
      assert all[..k] + [all[k]] == all[..k + 1];
    }
    if drop.Has(now[i].key) {
      assert (before + after)[..i] == before && (before + after)[i..] == after;
    } else {
      assert now[..i + 1] == before + [now[i]];
    }
  }

  lemma {:induction false} SweepDone<V>(all: seq<Entry<V>>, k: nat, drop: Victims, now: seq<Entry<V>>, i: nat)
    requires Swept(all, k, drop, now, i) && i == |now| && Distinct(all)
    ensures now == Without(all, drop) && Distinct(now)
  {
    assert now[i..] == [] && now[..i] == now;
    assert all[..k] == all;
    WithoutMembers(all, drop);
  }

  /** Eviction removes exactly the shortest oldest-first prefix that reaches the target. */
  lemma {:induction false} EvictIsShortestPrefix<V>(s: seq<Entry<V>>, target: nat) returns (k: nat)
    ensures k <= |s| && Evict(s, target) == s[k..] && Total(s[k..]) <= target
    ensures forall j | 0 <= j < k :: Total(s[j..]) > target
  {
    if Total(s) <= target {
      k := 0;
    } else {
      k := EvictIsShortestPrefix(s[1..], target);
      forall j | 0 <= j < k + 1 ensures Total(s[j..]) > target {
        if j > 0 { assert s[1..][j - 1..] == s[j..]; }
      }
      assert s[1..][k..] == s[k + 1..];
      k := k + 1;
    }
  }

  lemma {:induction false} AppendDistinct<V>(s: seq<Entry<V>>, e: Entry<V>)
    requires Distinct(s)
    ensures Distinct(Without(s, Only(e.key)) + [e])
  {
    var kept := Without(s, Only(e.key));
    WithoutMembers(s, Only(e.key));
    forall i | 0 <= i < |kept| ensures kept[i].key != e.key {
      assert !Only(e.key).Has(kept[i].key);
    }
  }

  /** After a `Put` the store is within its cap, and says about every key what a map with evictions may say. */
  lemma {:induction false} PutProperties<V>(s: seq<Entry<V>>, e: Entry<V>, cap: nat, target: nat)
    requires Distinct(s) && target <= cap
    ensures var r := Put(s, e, cap, target);
            && Distinct(r) && Total(r) <= cap
            && (Lookup(r, e.key) == None || Lookup(r, e.key) == Some(e))
            && forall k | k != e.key :: Lookup(r, k) == None || Lookup(r, k) == Lookup(s, k)
    ensures Total(Without(s, Only(e.key))) + e.size <= cap ==>
              Put(s, e, cap, target) == Without(s, Only(e.key)) + [e]
  {
    var kept := Without(s, Only(e.key));
    var grown := kept + [e];
    AppendDistinct(s, e);
    TotalConcat(kept, [e]);
    var cut := EvictIsShortestPrefix(grown, target);
    forall k | k != e.key
      ensures Lookup(grown, k) == Lookup(s, k)
      ensures Lookup(grown[cut..], k) == None || Lookup(grown[cut..], k) == Lookup(s, k)
    {
      LookupConcat(kept, [e], k);
      LookupWithout(s, Only(e.key), k);
      LookupSuffix(grown, cut, k);
    }
    LookupConcat(kept, [e], e.key);
    LookupWithout(s, Only(e.key), e.key);
    LookupSuffix(grown, cut, e.key);
    assert grown[0..] == grown;
  }

  lemma {:induction false} LookupSuffix<V>(s: seq<Entry<V>>, k: nat, key: string)
    requires Distinct(s) && k <= |s|
    ensures Lookup(s[k..], key) == None || Lookup(s[k..], key) == Lookup(s, key)
  {
    LookupConcat(s[..k], s[k..], key);
    assert s == s[..k] + s[k..];
    LookupMember(s[..k], key);
    LookupMember(s[k..], key);
  }

  /** A touch changes recency only. */
  lemma {:induction false} TouchProperties<V>(s: seq<Entry<V>>, key: string)
    requires Distinct(s)
    ensures Distinct(Touch(s, key)) && Total(Touch(s, key)) == Total(s)
    ensures forall k :: Lookup(Touch(s, key), k) == Lookup(s, k)
  {
    if Lookup(s, key).Some? {
      var e := Lookup(s, key).value;
      LookupMember(s, key);
      AppendDistinct(s, e);
      RemoveOneTotal(s, key);
      TotalConcat(Without(s, Only(key)), [e]);
      forall k ensures Lookup(Touch(s, key), k) == Lookup(s, k) {
        LookupConcat(Without(s, Only(key)), [e], k);
        LookupWithout(s, Only(key), k);
      }
    }
  }

  /** What is put in stays in if it fits at all. */
  lemma {:induction false} PutKeepsNewest<V>(s: seq<Entry<V>>, e: Entry<V>, cap: nat, target: nat)
    requires Distinct(s) && target <= cap && e.size <= target
    ensures Lookup(Put(s, e, cap, target), e.key) == Some(e)
  {
    var kept := Without(s, Only(e.key));
    var grown := kept + [e];
    AppendDistinct(s, e);
    var cut := 0;
    if Total(grown) > cap { cut := EvictIsShortestPrefix(grown, target); }
    assert grown[|kept|..] == [e] && Total([e]) == e.size by { assert [e][1..] == []; }
    assert cut <= |kept|;
    assert grown[0..] == grown;
    assert grown[cut..] == kept[cut..] + [e];
    WithoutMembers(s, Only(e.key));
    LookupMember(kept[cut..], e.key);
    LookupConcat(kept[cut..], [e], e.key);
  }

  /** What was used last goes last: if an insert pushes it out, it pushes out everything older. */
  lemma {:induction false} UsedLastGoesLast<V>(s: seq<Entry<V>>, key: string, e: Entry<V>, cap: nat, target: nat)
    requires Distinct(s) && target <= cap && Lookup(s, key).Some? && e.key != key
    requires Lookup(Put(Touch(s, key), e, cap, target), key) == None
    ensures forall k | k != e.key :: Lookup(Put(Touch(s, key), e, cap, target), k) == None
  {
    var touched, used := Touch(s, key), Lookup(s, key).value;
    LookupMember(s, key);
    TouchProperties(s, key);
    var kept := Without(touched, Only(e.key));
    var older := Without(Without(s, Only(key)), Only(e.key));
    WithoutConcat(Without(s, Only(key)), [used], Only(e.key));
    assert [used][1..] == [];
    assert kept == older + [used];
    AppendDistinct(touched, e);
    var grown := kept + [e];
    var cut := 0;
    if Total(grown) > cap { cut := EvictIsShortestPrefix(grown, target); }
    var r := grown[cut..];
    assert r == Put(touched, e, cap, target);
    if cut <= |older| { assert r[|older| - cut] == used; }
    LookupMember(r, key);
    assert r == [] || r == [e];
  }
}
