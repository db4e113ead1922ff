/** The adapter's file-content cache, whose Map iteration order is its recency order. */
module ReadCache {
  import opened Lru

  newtype byte = x: int | 0 <= x < 256
  type Bytes = seq<byte>

  datatype Cached = Cached(data: Bytes, mtime: int)

  /** The bookkeeping of a put, one step at a time. */
  lemma {:induction false} PutSteps(s: seq<Entry<Cached>>, e: Entry<Cached>, cap: nat)
    requires Distinct(s) && Total(s) <= cap
    ensures var kept := Without(s, Only(e.key));
            && (Lookup(s, e.key).None? ==> kept == s)
            && (Lookup(s, e.key).Some? ==> Total(kept) == Total(s) - Lookup(s, e.key).value.size)
            && Distinct(kept + [e]) && Total(kept + [e]) == Total(kept) + e.size
            && Lru.Put(s, e, cap, cap) == Evict(kept + [e], cap)
            && Distinct(Lru.Put(s, e, cap, cap)) && Total(Lru.Put(s, e, cap, cap)) <= cap
  {
    var kept := Without(s, Only(e.key));
    PutProperties(s, e, cap, cap);
    RemoveOneTotal(s, e.key);
    AppendDistinct(s, e);
    TotalConcat(kept, [e]);
    if Lookup(s, e.key).None? { WithoutAbsent(s, e.key); }
  }

  class ReadCache {
    /** The Map, in iteration order. */
    var entries: seq<Entry<Cached>>
    var bytes: int
    var hits: nat
    var misses: nat
    var evictions: nat
    const maxBytes: nat

    ghost predicate Valid()
      reads this
    {
      Distinct(entries) && bytes == Total(entries) <= maxBytes
    }

    constructor (maxBytes: nat := 64 * 1024 * 1024)
      ensures Valid() && entries == [] && this.maxBytes == maxBytes
    {
      entries, bytes, hits, misses, evictions := [], 0, 0, 0, 0;
      this.maxBytes := maxBytes;
    }

    /** Read without touching recency. */
    function Peek(path: string): Option<Cached>
      reads this
    {
      match Lookup(entries, path)
      case None => None
      case Some(e) => Some(e.value)
    }

    method Get(path: string) returns (r: Option<Cached>)
      requires Valid()
      modifies this
      ensures Valid() && entries == Touch(old(entries), path) && r == old(Peek(path)) && evictions == old(evictions)
      ensures hits == old(hits) + (if r.Some? then 1 else 0) && misses == old(misses) + (if r.None? then 1 else 0)
    {
      TouchProperties(entries, path);
      var found := Lookup(entries, path);
      if found.None? {
        misses := misses + 1;
        return None;
      }
      entries := Without(entries, Only(path));
      entries := entries + [found.value];
      hits := hits + 1;
      return Some(found.value.value);
    }

    method Put(path: string, data: Bytes, mtime: int)
      requires Valid()
      modifies this
      ensures Valid()
      ensures entries == Lru.Put(old(entries), Entry(path, Cached(data, mtime), |data|), maxBytes, maxBytes)
      ensures hits == old(hits) && misses == old(misses)
    {
      var e := Entry(path, Cached(data, mtime), |data|);
      PutSteps(entries, e, maxBytes);
      var existing := Lookup(entries, path);
      if existing.Some? {
        bytes := bytes - existing.value.size;
        entries := Without(entries, Only(path));
      }
      entries := entries + [e];
      bytes := bytes + e.size;
      EvictIfOverBudget();
    }

    method EvictIfOverBudget()
      requires Distinct(entries) && bytes == Total(entries)
      modifies this
      ensures entries == Evict(old(entries), maxBytes) && bytes == Total(entries)
      ensures hits == old(hits) && misses == old(misses)
      ensures evictions == old(evictions) + (|old(entries)| - |entries|)
    {
      if bytes <= maxBytes { return; }
      while bytes > maxBytes
        invariant bytes == Total(entries) && Evict(entries, maxBytes) == Evict(old(entries), maxBytes)
        invariant |entries| <= |old(entries)| && evictions == old(evictions) + (|old(entries)| - |entries|)
        invariant hits == old(hits) && misses == old(misses)
        decreases |entries|
      {
        bytes := bytes - entries[0].size;
        entries := entries[1..];
        evictions := evictions + 1;
      }
    }

    method Invalidate(path: string)
      requires Valid()
      modifies this
      ensures Valid() && entries == Without(old(entries), Only(path))
    {
      RemoveOneTotal(entries, path);
      WithoutMembers(entries, Only(path));
      var existing := Lookup(entries, path);
      if existing.None? {
        WithoutAbsent(entries, path);
        return;
      }
      bytes := bytes - existing.value.size;
      entries := Without(entries, Only(path));
    }

    /** The loop walks the Map while deleting from it. */
    method InvalidatePrefix(prefix: string) returns (removed: nat)
      requires Valid()
      modifies this
      ensures Valid() && entries == Without(old(entries), AtPrefix(prefix))
      ensures removed == |old(entries)| - |entries|
    {
      ghost var all := entries;
      ghost var k := 0;
      var i := 0;
      removed := 0;
      var drop := AtPrefix(prefix);
      assert all[..0] == [];
      while i < |entries|
        invariant Swept(all, k, drop, entries, i)
        invariant removed + |entries| == |all|
        invariant bytes == Total(entries) && Total(entries) <= maxBytes
        decreases |entries| - i
      {
        SweepStep(all, k, drop, entries, i);
        RemoveAtTotal(entries, i);
        var e := entries[i];
        if drop.Has(e.key) {
          bytes := bytes - e.size;
          entries := entries[..i] + entries[i + 1..];
          removed := removed + 1;
        } else {
          i := i + 1;
        }
        k := k + 1;
      }
      SweepDone(all, k, drop, entries, i);
    }

    method Clear()
      modifies this
      ensures Valid() && entries == []
    {
      entries, bytes := [], 0;
    }
  }
}
