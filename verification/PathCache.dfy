/** simulation/navigation/path_cache.py: the LRU-bounded path cache. */
module PathCache {
  import opened Wrappers
  import opened Tiles

  type Path = seq<Point>

  datatype Key = Key(faction: string, gridVersion: int, costVersion: int, start: Point, goal: Point)

  datatype Entry = Entry(key: Key, path: Path)

  // ---- the ordered dictionary, oldest entry first ------------------------------

  function Find(c: seq<Entry>, key: Key): (r: Option<Path>)
    ensures r.Some? <==> exists i :: 0 <= i < |c| && c[i].key == key
    ensures r.Some? ==> Entry(key, r.value) in c
  {
    if c == [] then None
    else if c[0].key == key then Some(c[0].path)
    else Find(c[1..], key)
  }

  /** The entries whose key is not dropped, in their order. */
  function Keep(c: seq<Entry>, drop: set<Key>): (r: seq<Entry>)
    ensures |r| <= |c|
  {
    if c == [] then []
    else if c[0].key in drop then Keep(c[1..], drop)
    else [c[0]] + Keep(c[1..], drop)
  }

  lemma {:induction false} KeepMembers(c: seq<Entry>, drop: set<Key>)
    ensures forall e :: e in Keep(c, drop) <==> e in c && e.key !in drop
  {
    if c != [] { KeepMembers(c[1..], drop); }
  }

  predicate DistinctKeys(c: seq<Entry>) {
    forall i, j :: 0 <= i < j < |c| ==> c[i].key != c[j].key
  }

  /** The n newest entries. */
  function Newest(c: seq<Entry>, n: nat): seq<Entry> {
    if |c| <= n then c else c[|c| - n..]
  }

  function StaleKeys(c: seq<Entry>, version: int): set<Key> {
    set e | e in c && e.key.gridVersion < version :: e.key
  }

  /** A lookup moves a hit to the newest end. */
  function LookedUp(c: seq<Entry>, key: Key): seq<Entry> {
    match Find(c, key)
    case None => c
    case Some(p) => Keep(c, {key}) + [Entry(key, p)]
  }

  /** A store refreshes a known key in place at the newest end; a new key evicts the oldest. */
  function Stored(c: seq<Entry>, max: nat, key: Key, path: Path): seq<Entry> {
    if max == 0 then c
    else if Find(c, key).Some? then Keep(c, {key}) + [Entry(key, path)]
    else Newest(c + [Entry(key, path)], max)
  }

  lemma {:induction false} KeepConcat(a: seq<Entry>, b: seq<Entry>, drop: set<Key>)
    ensures Keep(a + b, drop) == Keep(a, drop) + Keep(b, drop)
  {
    if a == [] {
      assert a + b == b;
    } else {
      assert (a + b)[1..] == a[1..] + b;
      KeepConcat(a[1..], b, drop);
    }
  }

  lemma {:induction false} KeepTwice(c: seq<Entry>, a: set<Key>, b: set<Key>)
    ensures Keep(Keep(c, a), b) == Keep(c, a + b)
  {
    if c != [] {
      KeepTwice(c[1..], a, b);
      if c[0].key !in a {
        assert ([c[0]] + Keep(c[1..], a))[1..] == Keep(c[1..], a);
      }
    }
  }

  lemma {:induction false} KeepAll(c: seq<Entry>, drop: set<Key>)
    requires forall e :: e in c ==> e.key !in drop
    ensures Keep(c, drop) == c
  {
    if c != [] { KeepAll(c[1..], drop); }
  }

  lemma {:induction false} KeepIsDistinct(c: seq<Entry>, drop: set<Key>)
    requires DistinctKeys(c)
    ensures DistinctKeys(Keep(c, drop))
  {
    if c != [] {
      KeepIsDistinct(c[1..], drop);
      KeepMembers(c[1..], drop);
    }
  }

  /** Dropping one present key of a distinct list drops exactly one entry. */
  lemma {:induction false} KeepDropsOne(c: seq<Entry>, key: Key)
    requires DistinctKeys(c) && Find(c, key).Some?
    ensures |Keep(c, {key})| == |c| - 1
  {
    if c[0].key == key {
      KeepAll(c[1..], {key});
    } else {
      assert exists i :: 0 <= i < |c| && c[i].key == key;
      KeepDropsOne(c[1..], key);
    }
  }

  lemma LookupKeepsShape(c: seq<Entry>, key: Key)
    requires DistinctKeys(c)
    ensures DistinctKeys(LookedUp(c, key)) && |LookedUp(c, key)| == |c|
    ensures forall e :: e in LookedUp(c, key) <==> e in c
  {
    if Find(c, key).Some? {
      KeepIsDistinct(c, {key});
      KeepMembers(c, {key});
      KeepDropsOne(c, key);
      forall e | e in c ensures e in LookedUp(c, key) {
        if e.key == key { FindDistinct(c, e); }
      }
    }
  }

  lemma {:induction false} FindDistinct(c: seq<Entry>, e: Entry)
    requires DistinctKeys(c) && e in c
    ensures Find(c, e.key) == Some(e.path)
  {
    if c[0] != e { FindDistinct(c[1..], e); }
  }

  lemma StoreKeepsShape(c: seq<Entry>, max: nat, key: Key, path: Path)
    requires DistinctKeys(c) && |c| <= max
    ensures DistinctKeys(Stored(c, max, key, path)) && |Stored(c, max, key, path)| <= max
    ensures forall e :: e in Stored(c, max, key, path) ==> e in c || e == Entry(key, path)
  {
    if Find(c, key).Some? {
      KeepIsDistinct(c, {key});
      KeepMembers(c, {key});
      KeepDropsOne(c, key);
    }
  }

  // ---- the cache object -----------------------------------------------------------

  class PathCache {
    const maxEntries: nat
    var cache: seq<Entry>
    var hits: nat
    var misses: nat
    var evictions: nat

    ghost predicate Valid()
      reads this
    {
      DistinctKeys(cache) && |cache| <= maxEntries
    }

    constructor (max: int)
      ensures Valid() && cache == [] && hits == misses == evictions == 0
      ensures maxEntries == if max < 0 then 0 else max
    {
      maxEntries := if max < 0 then 0 else max;
      cache := [];
      hits, misses, evictions := 0, 0, 0;
    }

    method Lookup(key: Key) returns (r: Option<Path>)
      requires Valid()
      modifies this
      ensures Valid() && cache == LookedUp(old(cache), key)
      ensures r == Find(old(cache), key)
      ensures evictions == old(evictions)
      ensures hits == old(hits) + (if r.Some? then 1 else 0) && misses == old(misses) + (if r.Some? then 0 else 1)
    {
      LookupKeepsShape(cache, key);
      if maxEntries == 0 {
        misses := misses + 1;
        return None;
      }
      r := Find(cache, key);
      if r.None? {
        misses := misses + 1;
        return None;
      }
      cache := Keep(cache, {key}) + [Entry(key, r.value)];
      hits := hits + 1;
    }

    method RecordResult(key: Key, path: Path)
      requires Valid()
      modifies this
      ensures Valid() && cache == Stored(old(cache), maxEntries, key, path)
      ensures hits == old(hits) && misses == old(misses)
      ensures evictions == old(evictions) +
        (if maxEntries > 0 && Find(old(cache), key).None? && |old(cache)| == maxEntries then 1 else 0)
    {
      StoreKeepsShape(cache, maxEntries, key, path);
      if maxEntries == 0 {
        return;
      }
      if Find(cache, key).Some? {
        cache := Keep(cache, {key}) + [Entry(key, path)];
        return;
      }
      cache := cache + [Entry(key, path)];
      ghost var full := cache;
      while |cache| > maxEntries
        invariant |cache| <= |full| <= maxEntries + 1
        invariant maxEntries <= |cache| || cache == full
        invariant cache == full[|full| - |cache|..]
        invariant evictions == old(evictions) + (|full| - |cache|)
        invariant hits == old(hits) && misses == old(misses)
      {
        cache := cache[1..];
        evictions := evictions + 1;
      }
    }

    /** Drops every entry filed under an older grid version, and nothing else. */
    method InvalidateGridVersion(version: int) returns (dropped: nat)
      requires Valid()
      modifies this
      ensures Valid() && cache == Keep(old(cache), StaleKeys(old(cache), version))
      ensures forall e :: e in cache <==> e in old(cache) && e.key.gridVersion >= version
      ensures dropped == |old(cache)| - |cache| && evictions == old(evictions) + dropped
      ensures hits == old(hits) && misses == old(misses)
    {
      ghost var c := cache;
      var todo := StaleKeys(cache, version);
      ghost var stale := todo;
      dropped := 0;
      KeepAll(c, {});
      assert stale - todo == {};
      while todo != {}
        invariant todo <= stale && cache == Keep(c, stale - todo) && DistinctKeys(cache)
        invariant dropped + |cache| == |c| && evictions == old(evictions) + dropped
        invariant hits == old(hits) && misses == old(misses)
      {
        var k :| k in todo;
        DropOne(c, cache, stale, todo, k);
        cache := Keep(cache, {k});
        evictions := evictions + 1;
        dropped := dropped + 1;
        todo := todo - {k};
      }
      assert stale - todo == stale;
      KeepMembers(c, stale);
    }

    method Clear()
      modifies this
      ensures Valid() && cache == []
      ensures hits == old(hits) && misses == old(misses) && evictions == old(evictions)
    {
      cache := [];
    }
  }

  lemma DroppedSoFar(stale: set<Key>, todo: set<Key>, k: Key)
    requires k in todo && todo <= stale
    ensures stale - todo + {k} == stale - (todo - {k}) && k !in stale - todo
  {
  }

  lemma DropOne(c: seq<Entry>, cache: seq<Entry>, stale: set<Key>, todo: set<Key>, k: Key)
    requires DistinctKeys(c) && DistinctKeys(cache) && cache == Keep(c, stale - todo)
    requires k in todo && todo <= stale && exists e :: e in c && e.key == k
    ensures Keep(cache, {k}) == Keep(c, stale - (todo - {k}))
    ensures DistinctKeys(Keep(cache, {k})) && |Keep(cache, {k})| == |cache| - 1
  {
    var e :| e in c && e.key == k;
    var gone := stale - todo;
    DroppedSoFar(stale, todo, k);
    hide Keep, DistinctKeys;
    KeepMembers(c, gone);
    assert e in cache;
    FindDistinct(cache, e);
    KeepDropsOne(cache, k);
    KeepIsDistinct(cache, {k});
    KeepTwice(c, gone, {k});
  }
}
