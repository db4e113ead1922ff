/**
 The ancestor snapshots behind the three-way merge view. Recency is an access tick per entry,
 sorted only when something has to go; the ghost `order` is the sorted order at all times.
 */
module AncestorTracker {
  import opened Lru
  import opened Text

  datatype Ancestor = Ancestor(content: string, mtime: int)
  datatype Tracked = Tracked(content: string, mtime: int, sizeBytes: nat, lastAccessed: nat)

  /** The module-level counter, shared by every tracker. */
  class TickCounter {
    var value: nat

    constructor ()
      ensures value == 0
    {
      value := 0;
    }

    method Next() returns (tick: nat)
      modifies this
      ensures tick == value == old(value) + 1
    {
      value := value + 1;
      return value;
    }
  }

  ghost function Keys(order: seq<string>): set<string> {
    set k | k in order
  }

  /** Keys of `m` in strictly increasing tick order. */
  ghost predicate ByTick(order: seq<string>, m: map<string, Tracked>) {
    order == [] ||
    (order[0] in m
     && (forall k | k in order[1..] && k in m :: m[order[0]].lastAccessed < m[k].lastAccessed)
     && ByTick(order[1..], m))
  }

  /** `order` lists exactly the keys of `m`, oldest access first. */
  ghost predicate IsOrder(order: seq<string>, m: map<string, Tracked>) {
    ByTick(order, m) && Keys(order) == m.Keys
  }

  function EntryOf(k: string, t: Tracked): Entry<Ancestor> {
    Entry(k, Ancestor(t.content, t.mtime), t.sizeBytes)
  }

  /** The abstract store these fields stand for. */
  function Abs(m: map<string, Tracked>, order: seq<string>): seq<Entry<Ancestor>> {
    if order == [] then []
    else (if order[0] in m then [EntryOf(order[0], m[order[0]])] else []) + Abs(m, order[1..])
  }

  function Removed(order: seq<string>, path: string): seq<string> {
    if order == [] then []
    else if order[0] == path then Removed(order[1..], path)
    else [order[0]] + Removed(order[1..], path)
  }

  lemma {:induction false} RemovedMembers(order: seq<string>, path: string)
    ensures Keys(Removed(order, path)) == Keys(order) - {path}
  {
    if order != [] {
      RemovedMembers(order[1..], path);
      assert order == [order[0]] + order[1..];
      assert Keys(order) == {order[0]} + Keys(order[1..]);
      var rest := Removed(order[1..], path);
      assert Keys([order[0]] + rest) == {order[0]} + Keys(rest);
    }
  }

  /** Removing a key, from the order and perhaps from the map, keeps the rest sorted. */
  lemma {:induction false} RemovedByTick(order: seq<string>, path: string, m: map<string, Tracked>, n: map<string, Tracked>)
    requires ByTick(order, m)
    requires forall k | k in m && k != path :: k in n && n[k] == m[k]
    ensures ByTick(Removed(order, path), n)
    ensures Abs(n, Removed(order, path)) == Without(Abs(m, order), Only(path))
  {
    if order != [] {
      var head, rest := order[0], Removed(order[1..], path);
      RemovedByTick(order[1..], path, m, n);
      RemovedMembers(order[1..], path);
      var tail := Abs(m, order[1..]);
      assert Abs(m, order)[1..] == tail;
      if head != path {
        assert ([head] + rest)[1..] == rest;
        forall k | k in rest && k in n ensures n[head].lastAccessed < n[k].lastAccessed {
          assert k in Keys(rest);
          assert k in Keys(order[1..]) - {path};
          ByTickMember(order[1..], m, k);
        }
      }
    }
  }

  lemma {:induction false} ByTickMember(order: seq<string>, m: map<string, Tracked>, k: string)
    requires ByTick(order, m) && k in order
    ensures k in m
  {
    if k != order[0] {
      ByTickMember(order[1..], m, k);
    }
  }

  /** A newer key goes at the end. */
  lemma {:induction false} AppendNewest(order: seq<string>, m: map<string, Tracked>, path: string)
    requires ByTick(order, m) && path in m
    requires forall k | k in order && k in m :: m[k].lastAccessed < m[path].lastAccessed
    ensures ByTick(order + [path], m)
    ensures Abs(m, order + [path]) == Abs(m, order) + [EntryOf(path, m[path])]
  {
    if order == [] {
      assert order + [path] == [path] && [path][1..] == [];
    } else {
      AppendNewest(order[1..], m, path);
      assert (order + [path])[1..] == order[1..] + [path];
    }
  }

  lemma {:induction false} AbsKeys(m: map<string, Tracked>, order: seq<string>)
    ensures forall j | 0 <= j < |Abs(m, order)| :: Abs(m, order)[j].key in order
  {
    if order != [] {
      AbsKeys(m, order[1..]);
      var tail := Abs(m, order[1..]);
      forall j | 0 <= j < |tail| ensures tail[j].key in order {
        assert tail[j].key in order[1..];
      }
    }
  }

  lemma {:induction false} AbsLookup(m: map<string, Tracked>, order: seq<string>, path: string)
    requires ByTick(order, m)
    ensures Lookup(Abs(m, order), path) == if path in order && path in m then Some(EntryOf(path, m[path])) else None
    ensures path in order ==> path in m
    ensures Distinct(Abs(m, order))
  {
    if path in order { ByTickMember(order, m, path); }
    if order != [] {
      AbsLookup(m, order[1..], path);
      HeadOnce(order, m);
      AbsKeys(m, order[1..]);
      var tail := Abs(m, order[1..]);
      assert Abs(m, order)[1..] == tail;
      assert order == [order[0]] + order[1..];
    }
  }

  lemma KeysEmpty(order: seq<string>)
    ensures Keys(order) == {} <==> order == []
  {
    if order != [] { assert order[0] in Keys(order); }
  }

  /** Sorting by tick can only give one answer. */
  lemma {:induction false} SortedUnique(x: seq<string>, y: seq<string>, m: map<string, Tracked>)
    requires ByTick(x, m) && ByTick(y, m)
    requires Keys(x) == Keys(y)
    ensures x == y
  {
    if x == [] || y == [] {
      KeysEmpty(x);
      KeysEmpty(y);
    } else {
      assert x[0] in Keys(x) && x[0] in Keys(y);
      assert y[0] in Keys(y) && y[0] in Keys(x);
      HeadIsOldest(x, m, y[0]);
      HeadIsOldest(y, m, x[0]);
      HeadOnce(x, m);
      HeadOnce(y, m);
      assert Keys(x[1..]) == Keys(x) - {x[0]};
      assert Keys(y[1..]) == Keys(y) - {y[0]};
      SortedUnique(x[1..], y[1..], m);
    }
  }

  lemma {:induction false} HeadIsOldest(order: seq<string>, m: map<string, Tracked>, k: string)
    requires ByTick(order, m) && k in order
    ensures k in m && (k == order[0] || m[order[0]].lastAccessed < m[k].lastAccessed)
  {
    ByTickMember(order, m, k);
    assert order == [order[0]] + order[1..];
  }

  lemma {:induction false} HeadOnce(order: seq<string>, m: map<string, Tracked>)
    requires ByTick(order, m) && order != []
    ensures order[0] !in order[1..] && Keys(order[1..]) == Keys(order) - {order[0]}
  {
    assert order == [order[0]] + order[1..];
  }

  /** A fresh tick moves an entry to the newest place, whatever the Map does. */
  lemma Touched(m: map<string, Tracked>, order: seq<string>, path: string, e: Tracked)
    requires IsOrder(order, m)
    requires forall k | k in m :: m[k].lastAccessed < e.lastAccessed
    ensures IsOrder(Removed(order, path) + [path], m[path := e])
    ensures Abs(m[path := e], Removed(order, path) + [path]) == Without(Abs(m, order), Only(path)) + [EntryOf(path, e)]
  {
    var n, kept := m[path := e], Removed(order, path);
    RemovedMembers(order, path);
    RemovedByTick(order, path, m, n);
    forall k | k in kept && k in n ensures n[k].lastAccessed < e.lastAccessed {
      assert k in Keys(kept);
    }
    AppendNewest(kept, n, path);
    assert Keys(kept + [path]) == Keys(kept) + {path};
  }

  lemma {:induction false} Dropped(m: map<string, Tracked>, order: seq<string>, path: string)
    requires IsOrder(order, m)
    ensures IsOrder(Removed(order, path), m - {path})
    ensures Abs(m - {path}, Removed(order, path)) == Without(Abs(m, order), Only(path))
  {
    RemovedMembers(order, path);
    RemovedByTick(order, path, m, m - {path});
  }

  lemma {:induction false} RemovedAbsent(order: seq<string>, path: string)
    requires path !in order
    ensures Removed(order, path) == order
  {
    if order != [] {
      assert order == [order[0]] + order[1..];
      RemovedAbsent(order[1..], path);
    }
  }

  lemma {:induction false} DroppedOldest(m: map<string, Tracked>, order: seq<string>)
    requires IsOrder(order, m) && order != []
    ensures order[0] in m && IsOrder(order[1..], m - {order[0]})
    ensures Abs(m, order) != [] && Abs(m - {order[0]}, order[1..]) == Abs(m, order)[1..]
    ensures Total(Abs(m, order)) == m[order[0]].sizeBytes + Total(Abs(m, order)[1..])
  {
    HeadOnce(order, m);
    RemovedAbsent(order[1..], order[0]);
    Dropped(m, order, order[0]);
    RemovedByTick(order[1..], order[0], m, m - {order[0]});
    AbsLookup(m, order[1..], order[0]);
    WithoutAbsent(Abs(m, order[1..]), order[0]);
    assert Abs(m, order)[1..] == Abs(m, order[1..]);
  }

  /** What one lookup or deletion does to the byte total. */
  lemma {:induction false} KeyTotals(m: map<string, Tracked>, order: seq<string>, path: string)
    requires IsOrder(order, m)
    ensures var s := Abs(m, order);
            && Distinct(s)
            && Lookup(s, path) == (if path in m then Some(EntryOf(path, m[path])) else None)
            && Total(Without(s, Only(path))) == Total(s) - (if path in m then m[path].sizeBytes else 0)
            && (path !in m ==> Without(s, Only(path)) == s)
  {
    var s := Abs(m, order);
    AbsLookup(m, order, path);
    assert path in order <==> path in Keys(order);
    RemoveOneTotal(s, path);
    if path !in m { WithoutAbsent(s, path); }
  }

  class AncestorTracker {
    var entries: map<string, Tracked>
    var totalBytes: int
    const maxBytes: nat
    const clock: TickCounter
    ghost var order: seq<string>

    ghost predicate Consistent()
      reads this, clock
    {
      && IsOrder(order, entries)
      && (forall k | k in entries :: entries[k].lastAccessed <= clock.value)
      && totalBytes == Total(Store())
    }

    ghost predicate Valid()
      reads this, clock
    {
      Consistent() && totalBytes <= maxBytes
    }

    /** The store, oldest access first. */
    ghost function Store(): seq<Entry<Ancestor>>
      reads this
    {
      Abs(entries, order)
    }

    /** Eviction goes below the cap so a steady workload does not evict every time. */
    function Target(): nat {
      maxBytes * 9 / 10
    }

    constructor (clock: TickCounter, maxBytes: nat := 64 * 1024 * 1024)
      ensures Valid() && Store() == [] && this.maxBytes == maxBytes && this.clock == clock
    {
      entries, totalBytes, order := map[], 0, [];
      this.maxBytes, this.clock := maxBytes, clock;
    }

    method Remember(path: string, content: string, mtime: int)
      requires Valid()
      modifies this, clock
      ensures Valid()
      ensures Store() == Lru.Put(old(Store()), Entry(path, Ancestor(content, mtime), Utf8Len(content)), maxBytes, Target())
    {
      Insert(path, content, mtime);
      if totalBytes > maxBytes {
        EvictNow();
      }
    }

    /** The part of `Remember` before the cap is looked at. */
    method Insert(path: string, content: string, mtime: int)
      requires Consistent()
      modifies this, clock
      ensures Consistent()
      ensures Store() == Without(old(Store()), Only(path)) + [Entry(path, Ancestor(content, mtime), Utf8Len(content))]
    {
      var sizeBytes := Utf8Len(content);
      KeyTotals(entries, order, path);
      TotalConcat(Without(Store(), Only(path)), [Entry(path, Ancestor(content, mtime), sizeBytes)]);
      if path in entries {
        totalBytes := totalBytes - entries[path].sizeBytes;
      }
      var tick := clock.Next();
      Touched(entries, order, path, Tracked(content, mtime, sizeBytes, tick));
      entries := entries[path := Tracked(content, mtime, sizeBytes, tick)];
      order := Removed(order, path) + [path];
      totalBytes := totalBytes + sizeBytes;
    }

    method Get(path: string) returns (r: Option<Ancestor>)
      requires Valid()
      modifies this, clock
      ensures Valid() && Store() == Touch(old(Store()), path)
      ensures r == match Lookup(old(Store()), path) case None => None case Some(e) => Some(e.value)
    {
      KeyTotals(entries, order, path);
      if path !in entries { return None; }
      var tick := clock.Next();
      var e := entries[path];
      TotalConcat(Without(Store(), Only(path)), [EntryOf(path, e)]);
      Touched(entries, order, path, e.(lastAccessed := tick));
      entries := entries[path := e.(lastAccessed := tick)];
      order := Removed(order, path) + [path];
      return Some(Ancestor(e.content, e.mtime));
    }

    method Invalidate(path: string)
      requires Valid()
      modifies this
      ensures Valid() && Store() == Without(old(Store()), Only(path))
    {
      KeyTotals(entries, order, path);
      if path !in entries { return; }
      totalBytes := totalBytes - entries[path].sizeBytes;
      Dropped(entries, order, path);
      entries := entries - {path};
      order := Removed(order, path);
    }

    method Clear()
      modifies this
      ensures Valid() && Store() == []
    {
      entries, totalBytes, order := map[], 0, [];
    }

    method EvictNow()
      requires Consistent() && totalBytes > maxBytes
      modifies this
      ensures Valid() && Store() == Evict(old(Store()), Target())
    {
      var target := Target();
      if totalBytes <= target { return; }
      var ordered := SortedByAccess();
      var i := 0;
      assert order[0..] == order;
      while i < |ordered| && totalBytes > target
        invariant 0 <= i <= |ordered| && order == ordered[i..]
        invariant Consistent()
        invariant Evict(Store(), target) == Evict(old(Store()), target)
      {
        var path := ordered[i];
        assert order[0] == path && order[1..] == ordered[i + 1..];
        DroppedOldest(entries, order);
        totalBytes := totalBytes - entries[path].sizeBytes;
        entries := entries - {path};
        order := order[1..];
        i := i + 1;
      }
    }

    method SortedByAccess() returns (ordered: seq<string>)
      requires IsOrder(order, entries)
      ensures ordered == order
    {
      ordered := [];
      var rest := entries.Keys;
      while rest != {}
        invariant rest <= entries.Keys && ByTick(ordered, entries)
        invariant Keys(ordered) == entries.Keys - rest
        invariant forall k, l | k in entries.Keys - rest && l in rest :: entries[k].lastAccessed < entries[l].lastAccessed
        decreases rest
      {
        var oldest := Oldest(rest);
        forall l | l in rest && l != oldest ensures entries[oldest].lastAccessed < entries[l].lastAccessed {
          TicksDiffer(entries, order, oldest, l);
        }
        forall k | k in ordered ensures k in entries.Keys - rest {
          assert k in Keys(ordered);
        }
        AppendNewest(ordered, entries, oldest);
        assert Keys(ordered + [oldest]) == Keys(ordered) + {oldest};
        ordered := ordered + [oldest];
        rest := rest - {oldest};
      }
      SortedUnique(ordered, order, entries);
    }

    method Oldest(keys: set<string>) returns (oldest: string)
      requires keys != {} && keys <= entries.Keys
      ensures oldest in keys && forall k | k in keys :: entries[oldest].lastAccessed <= entries[k].lastAccessed
    {
      oldest :| oldest in keys;
      var rest := keys - {oldest};
      while rest != {}
        invariant rest <= keys && oldest in keys
        invariant forall k | k in keys - rest :: entries[oldest].lastAccessed <= entries[k].lastAccessed
        decreases rest
      {
        var k :| k in rest;
        if entries[k].lastAccessed < entries[oldest].lastAccessed { oldest := k; }
        rest := rest - {k};
      }
    }
  }

  lemma TicksDiffer(m: map<string, Tracked>, order: seq<string>, x: string, y: string)
    requires IsOrder(order, m) && x in m && y in m && x != y
    ensures m[x].lastAccessed != m[y].lastAccessed
  {
    assert x in Keys(order) && y in Keys(order);
    OrderedTicksDiffer(m, order, x, y);
  }

  lemma {:induction false} OrderedTicksDiffer(m: map<string, Tracked>, order: seq<string>, x: string, y: string)
    requires ByTick(order, m) && x in order && y in order && x != y
    ensures x in m && y in m && m[x].lastAccessed != m[y].lastAccessed
  {
    HeadIsOldest(order, m, x);
    HeadIsOldest(order, m, y);
    if x != order[0] && y != order[0] {
      OrderedTicksDiffer(m, order[1..], x, y);
    }
  }
}
