/** The inclusion property of the path cache: on one access trace, a smaller cache always holds
    the newest entries of a larger one, so a larger cache never hits less often. */
module LruInclusion {
  import opened Wrappers
  import opened PathCache

  /** An access looks its key up and, on a miss, stores what the search finds for it. */
  datatype Op = Access(key: Key) | Invalidate(version: int) | Clear

  datatype State = State(cache: seq<Entry>, hits: nat)

  type Searcher = Key -> Option<Path>

  function Step(search: Searcher, max: nat, s: State, op: Op): State {
    match op
    case Access(key) =>
      if Find(s.cache, key).Some? then State(LookedUp(s.cache, key), s.hits + 1)
      else if search(key).Some? then State(Stored(s.cache, max, key, search(key).value), s.hits)
      else s
    case Invalidate(version) => State(Keep(s.cache, StaleKeys(s.cache, version)), s.hits)
    case Clear => State([], s.hits)
  }

  function Run(search: Searcher, max: nat, ops: seq<Op>): State {
    if ops == [] then State([], 0)
    else Step(search, max, Run(search, max, ops[..|ops| - 1]), ops[|ops| - 1])
  }

  /** Distinct keys, no more entries than allowed, and every entry what the search finds. */
  predicate Consistent(search: Searcher, max: nat, s: State) {
    && DistinctKeys(s.cache) && |s.cache| <= max
    && forall e :: e in s.cache ==> search(e.key) == Some(e.path)
  }

  predicate NewestOf(small: seq<Entry>, large: seq<Entry>) {
    |small| <= |large| && large[|large| - |small|..] == small
  }

  lemma StepIsConsistent(search: Searcher, max: nat, s: State, op: Op)
    requires Consistent(search, max, s)
    ensures Consistent(search, max, Step(search, max, s, op))
  {
    match op
    case Access(key) =>
      LookupKeepsShape(s.cache, key);
      if search(key).Some? { StoreKeepsShape(s.cache, max, key, search(key).value); }
    case Invalidate(version) =>
      KeepIsDistinct(s.cache, StaleKeys(s.cache, version));
      KeepMembers(s.cache, StaleKeys(s.cache, version));
    case Clear =>
  }

  lemma {:induction false} FindInSuffix(older: seq<Entry>, c: seq<Entry>, key: Key)
    requires DistinctKeys(older + c)
    ensures Find(c, key).Some? ==> Find(older + c, key) == Find(c, key) && Find(older, key).None?
    ensures Find(older + c, key).Some? && Find(c, key).None? ==> Find(older, key).Some?
  {
    var all := older + c;
    if Find(c, key).Some? {
      var e := Entry(key, Find(c, key).value);
      var i :| 0 <= i < |c| && c[i] == e;
      assert all[|older| + i] == e;
      FindDistinct(all, e);
      assert forall j :: 0 <= j < |older| ==> all[j] == older[j];
    } else if Find(all, key).Some? {
      var i :| 0 <= i < |all| && all[i].key == key;
      assert forall j :: |older| <= j < |all| ==> all[j] == c[j - |older|];
      assert forall j :: |older| <= j < |all| ==> all[j].key != key;
      assert older[i].key == key;
    }
  }

  lemma NewestIsSuffix(older: seq<Entry>, c: seq<Entry>, n: nat)
    ensures NewestOf(Newest(c, n), older + c)
  {
    var k := |Newest(c, n)|;
    assert (older + c)[|older| + |c| - k..] == c[|c| - k..];
  }

  lemma HitKeepsInclusion(older: seq<Entry>, small: seq<Entry>, key: Key)
    requires DistinctKeys(older + small) && Find(small, key).Some?
    ensures NewestOf(LookedUp(small, key), LookedUp(older + small, key))
  {
    FindInSuffix(older, small, key);
    KeepConcat(older, small, {key});
    hide NewestOf, Keep, DistinctKeys;
    var front, back := Keep(older, {key}), LookedUp(small, key);
    TailIsNewest(front, back);
    assert LookedUp(older + small, key) == front + back;
  }

  lemma TailIsNewest(front: seq<Entry>, back: seq<Entry>)
    ensures NewestOf(back, front + back)
  {
  }

  /** A hit in the larger cache alone: the smaller one stores the same path afresh. */
  lemma LargeHitKeepsInclusion(older: seq<Entry>, small: seq<Entry>, max: nat, key: Key, path: Path)
    requires DistinctKeys(older + small) && |small| <= max
    requires Find(small, key).None? && Find(older + small, key) == Some(path)
    ensures NewestOf(Stored(small, max, key, path), LookedUp(older + small, key))
  {
    KeepConcat(older, small, {key});
    KeepAll(small, {key});
    var e := Entry(key, path);
    assert Keep(older, {key}) + small + [e] == Keep(older, {key}) + (small + [e]);
    NewestIsSuffix(Keep(older, {key}), small + [e], max);
    if max == 0 { assert small == []; }
    hide NewestOf, Newest, Keep;
  }

  lemma NewestTwice(older: seq<Entry>, c: seq<Entry>, m1: nat, m2: nat)
    requires m1 <= m2
    ensures NewestOf(Newest(c, m1), Newest(older + c, m2))
  {
    var all := older + c;
    var k := |Newest(c, m1)|;
    assert all[|all| - k..] == c[|c| - k..];
    assert Newest(all, m2)[|Newest(all, m2)| - k..] == all[|all| - k..];
  }

  lemma MissKeepsInclusion(older: seq<Entry>, small: seq<Entry>, m1: nat, m2: nat, key: Key, path: Path)
    requires |small| <= m1 <= m2 && |older + small| <= m2
    requires Find(small, key).None? && Find(older + small, key).None?
    ensures NewestOf(Stored(small, m1, key, path), Stored(older + small, m2, key, path))
  {
    var e := Entry(key, path);
    assert older + small + [e] == older + (small + [e]);
    if m1 > 0 { NewestTwice(older, small + [e], m1, m2); }
  }

  lemma InvalidationKeepsInclusion(older: seq<Entry>, small: seq<Entry>, version: int)
    ensures NewestOf(Keep(small, StaleKeys(small, version)), Keep(older + small, StaleKeys(older + small, version)))
  {
    KeepConcat(older, small, StaleKeys(older + small, version));
    SameKeep(small, StaleKeys(small, version), StaleKeys(older + small, version), version);
  }

  lemma {:induction false} SameKeep(c: seq<Entry>, a: set<Key>, b: set<Key>, version: int)
    requires forall e :: e in c ==> (e.key in a <==> e.key.gridVersion < version)
    requires forall e :: e in c ==> (e.key in b <==> e.key.gridVersion < version)
    ensures Keep(c, a) == Keep(c, b)
  {
    if c != [] { SameKeep(c[1..], a, b, version); }
  }

  lemma StepKeepsInclusion(search: Searcher, m1: nat, m2: nat, s1: State, s2: State, op: Op)
    requires m1 <= m2 && Consistent(search, m1, s1) && Consistent(search, m2, s2)
    requires NewestOf(s1.cache, s2.cache) && s1.hits <= s2.hits
    ensures var t1, t2 := Step(search, m1, s1, op), Step(search, m2, s2, op);
      NewestOf(t1.cache, t2.cache) && t1.hits <= t2.hits
  {
    var small := s1.cache;
    var older := s2.cache[..|s2.cache| - |small|];
    assert s2.cache == older + small;
    match op
    case Clear =>
    case Invalidate(version) => InvalidationKeepsInclusion(older, small, version);
    case Access(key) =>
      FindInSuffix(older, small, key);
      if Find(small, key).Some? {
        HitKeepsInclusion(older, small, key);
      } else if Find(s2.cache, key).Some? {
        LargeHitKeepsInclusion(older, small, m1, key, Find(s2.cache, key).value);
      } else if search(key).Some? {
        MissKeepsInclusion(older, small, m1, m2, key, search(key).value);
      }
  }

  /** Over any trace: both caches stay within bounds, the smaller holds the newest entries of the
      larger, and hits never fall as the bound grows. */
  lemma {:induction false} LargerCacheNeverHitsLess(search: Searcher, m1: nat, m2: nat, ops: seq<Op>)
    requires m1 <= m2
    ensures Consistent(search, m1, Run(search, m1, ops)) && Consistent(search, m2, Run(search, m2, ops))
    ensures NewestOf(Run(search, m1, ops).cache, Run(search, m2, ops).cache)
    ensures Run(search, m1, ops).hits <= Run(search, m2, ops).hits
  {
    if ops != [] {
      var front, op := ops[..|ops| - 1], ops[|ops| - 1];
      LargerCacheNeverHitsLess(search, m1, m2, front);
      StepIsConsistent(search, m1, Run(search, m1, front), op);
      StepIsConsistent(search, m2, Run(search, m2, front), op);
      StepKeepsInclusion(search, m1, m2, Run(search, m1, front), Run(search, m2, front), op);
    }
  }
}
