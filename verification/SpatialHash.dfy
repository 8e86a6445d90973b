/** simulation/movement/spatial_hash.py: the bucket grid and its 3x3 query, against a filter over all
    entities. */
module SpatialHash {
  import opened Wrappers

  /** An entity; `ref` is the object's identity, which the sort key does not see. */
  datatype Entity = Entity(id: string, x: real, z: real, ref: nat)

  type Cell = (int, int)

  function CellOf(e: Entity, cellSize: real): Cell
    requires cellSize != 0.0
  {
    ((e.x / cellSize).Floor, (e.z / cellSize).Floor)
  }

  /** The k-th cell of the ring around a cell, in the source's order. */
  function RingCell(cell: Cell, k: nat): Cell
    requires k < 9
  {
    (cell.0 + k / 3 - 1, cell.1 + k % 3 - 1)
  }

  function Square(x: real): real {
    x * x
  }

  /** Within the radius of e; without a radius everything is. */
  predicate Near(o: Entity, e: Entity, radius: Option<real>) {
    radius.None? || Square(o.x - e.x) + Square(o.z - e.z) <= Square(radius.value)
  }

  // ---- filters ----------------------------------------------------------------------------

  function Filter(s: seq<Entity>, p: Entity -> bool): seq<Entity> {
    if s == [] then []
    else if p(s[|s| - 1]) then Filter(s[..|s| - 1], p) + [s[|s| - 1]]
    else Filter(s[..|s| - 1], p)
  }

  lemma {:induction false} FilterSame(s: seq<Entity>, p: Entity -> bool, q: Entity -> bool)
    requires forall e :: e in s ==> p(e) == q(e)
    ensures Filter(s, p) == Filter(s, q)
  {
    if s != [] { FilterSame(s[..|s| - 1], p, q); }
  }

  lemma {:induction false} FilterCounts(s: seq<Entity>, p: Entity -> bool, e: Entity)
    ensures multiset(Filter(s, p))[e] == if p(e) then multiset(s)[e] else 0
  {
    if s != [] {
      FilterCounts(s[..|s| - 1], p, e);
      assert s == s[..|s| - 1] + [s[|s| - 1]];
    }
  }

  lemma {:induction false} FilterTwice(s: seq<Entity>, p: Entity -> bool, q: Entity -> bool, both: Entity -> bool)
    requires forall e :: both(e) <==> p(e) && q(e)
    ensures Filter(Filter(s, p), q) == Filter(s, both)
  {
    if s != [] {
      FilterTwice(s[..|s| - 1], p, q, both);
      var front, last := Filter(s[..|s| - 1], p), s[|s| - 1];
      assert (front + [last])[..|front|] == front;
    }
  }

  lemma FilterOrder(s: seq<Entity>, t: seq<Entity>, p: Entity -> bool)
    requires multiset(s) == multiset(t)
    ensures multiset(Filter(s, p)) == multiset(Filter(t, p))
  {
    forall e ensures multiset(Filter(s, p))[e] == multiset(Filter(t, p))[e] {
      FilterCounts(s, p, e);
      FilterCounts(t, p, e);
    }
  }

  lemma FilterSplit(s: seq<Entity>, p: Entity -> bool, q: Entity -> bool, either: Entity -> bool)
    requires forall e :: either(e) <==> p(e) || q(e)
    requires forall e :: !(p(e) && q(e))
    ensures multiset(Filter(s, either)) == multiset(Filter(s, p)) + multiset(Filter(s, q))
  {
    forall e ensures multiset(Filter(s, either))[e] == multiset(Filter(s, p))[e] + multiset(Filter(s, q))[e] {
      FilterCounts(s, p, e);
      FilterCounts(s, q, e);
      FilterCounts(s, either, e);
    }
  }

  // ---- the index --------------------------------------------------------------------------

  type Buckets = map<Cell, seq<Entity>>

  function InCell(cellSize: real, cell: Cell): Entity -> bool
    requires cellSize != 0.0
  {
    e => CellOf(e, cellSize) == cell
  }

  /** Every bucket holds the entities of its cell in insertion order; empty cells have none. */
  ghost predicate Indexes(buckets: Buckets, entities: seq<Entity>, cellSize: real)
    requires cellSize != 0.0
  {
    forall cell: Cell :: BucketAt(buckets, cell) == Filter(entities, InCell(cellSize, cell))
  }

  function BucketAt(buckets: Buckets, cell: Cell): seq<Entity> {
    if cell in buckets then buckets[cell] else []
  }

  function Append(buckets: Buckets, cell: Cell, e: Entity): Buckets {
    buckets[cell := BucketAt(buckets, cell) + [e]]
  }

  lemma AppendIndexes(buckets: Buckets, entities: seq<Entity>, e: Entity, cellSize: real)
    requires cellSize != 0.0 && Indexes(buckets, entities, cellSize)
    ensures Indexes(Append(buckets, CellOf(e, cellSize), e), entities + [e], cellSize)
  {
    var after := Append(buckets, CellOf(e, cellSize), e);
    hide CellOf;
    assert (entities + [e])[..|entities|] == entities;
    forall cell: Cell
      ensures BucketAt(after, cell) == Filter(entities + [e], InCell(cellSize, cell))
    {
      assert BucketAt(buckets, cell) == Filter(entities, InCell(cellSize, cell));
    }
  }

  // ---- the sort key -----------------------------------------------------------------------------

  predicate LexLess(a: string, b: string) {
    b != "" && (a == "" || a[0] < b[0] || (a[0] == b[0] && LexLess(a[1..], b[1..])))
  }

  lemma {:induction false} LexTotal(a: string, b: string)
    ensures LexLess(a, b) || LexLess(b, a) || a == b
    ensures !(LexLess(a, b) && LexLess(b, a))
  {
    if a != "" && b != "" && a[0] == b[0] {
      LexTotal(a[1..], b[1..]);
      assert a == [a[0]] + a[1..] && b == [b[0]] + b[1..];
    }
  }

  lemma {:induction false} LexTransitive(a: string, b: string, c: string)
    requires !LexLess(b, a) && !LexLess(c, b)
    ensures !LexLess(c, a)
  {
    if LexLess(c, a) && c != "" {
      LexTotal(c, a);
      if b != "" && a[0] == b[0] == c[0] { LexTransitive(a[1..], b[1..], c[1..]); }
    }
  }

  predicate SameKey(e: Entity, f: Entity) {
    e.id == f.id && e.x == f.x && e.z == f.z
  }

  predicate KeyLess(e: Entity, f: Entity) {
    LexLess(e.id, f.id) || (e.id == f.id && (e.x < f.x || (e.x == f.x && e.z < f.z)))
  }

  lemma KeyTotal(e: Entity, f: Entity)
    ensures KeyLess(e, f) || KeyLess(f, e) || SameKey(e, f)
    ensures !(KeyLess(e, f) && KeyLess(f, e))
  {
    LexTotal(e.id, f.id);
  }

  lemma KeyTransitive(e: Entity, f: Entity, g: Entity)
    requires !KeyLess(f, e) && !KeyLess(g, f)
    ensures !KeyLess(g, e)
  {
    LexTotal(e.id, f.id);
    LexTotal(f.id, g.id);
    LexTotal(e.id, g.id);
    LexTransitive(e.id, f.id, g.id);
  }

  // ---- the stable sort -----------------------------------------------------------------------------

  function Insert(s: seq<Entity>, e: Entity): (r: seq<Entity>)
    ensures multiset(r) == multiset(s) + multiset{e}
  {
    if s == [] || !KeyLess(e, s[|s| - 1]) then s + [e]
    else
      assert s == s[..|s| - 1] + [s[|s| - 1]];
      Insert(s[..|s| - 1], e) + [s[|s| - 1]]
  }

  function Sorted(s: seq<Entity>): (r: seq<Entity>)
    ensures multiset(r) == multiset(s)
  {
    if s == [] then []
    else
      assert s == s[..|s| - 1] + [s[|s| - 1]];
      Insert(Sorted(s[..|s| - 1]), s[|s| - 1])
  }

  ghost predicate Ascending(s: seq<Entity>) {
    forall i, j :: 0 <= i < j < |s| ==> !KeyLess(s[j], s[i])
  }

  ghost predicate NoneAbove(s: seq<Entity>, top: Entity) {
    forall i :: 0 <= i < |s| ==> !KeyLess(top, s[i])
  }

  lemma {:induction false} InsertAscending(s: seq<Entity>, e: Entity, top: Entity)
    requires Ascending(s) && NoneAbove(s, top) && !KeyLess(top, e)
    ensures Ascending(Insert(s, e)) && NoneAbove(Insert(s, e), top)
  {
    if s == [] {
    } else if !KeyLess(e, s[|s| - 1]) {
      forall i | 0 <= i < |s| ensures !KeyLess(e, s[i]) {
        if i < |s| - 1 { KeyTransitive(s[i], s[|s| - 1], e); }
      }
    } else {
      var last := s[|s| - 1];
      KeyTotal(e, last);
      InsertAscending(s[..|s| - 1], e, last);
      var r := Insert(s[..|s| - 1], e);
      forall i | 0 <= i < |r| ensures !KeyLess(top, r[i]) {
        KeyTransitive(r[i], last, top);
      }
    }
  }

  lemma {:induction false} SortedAscending(s: seq<Entity>)
    ensures Ascending(Sorted(s))
  {
    if s != [] {
      var r, e := Sorted(s[..|s| - 1]), s[|s| - 1];
      SortedAscending(s[..|s| - 1]);
      if r != [] {
        var last := r[|r| - 1];
        KeyTotal(e, last);
        KeyTotal(e, e);
        KeyTotal(last, last);
        var top := if KeyLess(e, last) then last else e;
        forall i | 0 <= i < |r| ensures !KeyLess(top, r[i]) {
          if i < |r| - 1 { KeyTransitive(r[i], last, top); }
        }
        InsertAscending(r, e, top);
      }
    }
  }

  /** Ids are compared as words: at the first difference, or by the shorter being a beginning. */
  lemma {:induction false} LexLessIff(a: string, b: string)
    ensures LexLess(a, b) <==>
      exists k: nat :: k <= |a| && k < |b| && a[..k] == b[..k] && (k == |a| || a[k] < b[k])
  {
    if a != "" && b != "" && a[0] == b[0] {
      LexLessIff(a[1..], b[1..]);
      if k: nat :| k <= |a| - 1 && k < |b| - 1 && a[1..][..k] == b[1..][..k]
                   && (k == |a| - 1 || a[1..][k] < b[1..][k]) {
        assert a[..k + 1] == [a[0]] + a[1..][..k] && b[..k + 1] == [b[0]] + b[1..][..k];
        assert k + 1 == |a| || a[k + 1] < b[k + 1];
      }
      if k: nat :| k <= |a| && k < |b| && a[..k] == b[..k] && (k == |a| || a[k] < b[k]) {
        assert k > 0 && a[1..][..k - 1] == a[..k][1..] && b[1..][..k - 1] == b[..k][1..];
        assert k - 1 == |a| - 1 || a[1..][k - 1] < b[1..][k - 1];
      }
    } else if a == "" && b != "" {
      assert a[..0] == b[..0];
    } else if a != "" && b != "" && a[0] < b[0] {
      assert a[..0] == b[..0];
    } else {
      forall k: nat | 0 < k <= |a| && k < |b| ensures a[..k][0] == a[0] && b[..k][0] == b[0] { }
    }
  }

  /** Sorting is by id, then by x, then by z. */
  lemma SortedByKey(s: seq<Entity>, i: nat, j: nat)
    requires i < j < |Sorted(s)|
    ensures var e, f := Sorted(s)[i], Sorted(s)[j];
      !LexLess(f.id, e.id) && (e.id == f.id ==> e.x <= f.x && (e.x == f.x ==> e.z <= f.z))
  {
    SortedAscending(s);
    hide LexLess;
  }

  /** The sort key tells the entities apart. */
  ghost predicate KeysTell(s: seq<Entity>) {
    forall e, f :: e in s && f in s && SameKey(e, f) ==> e == f
  }

  lemma SameMembers(s: seq<Entity>, t: seq<Entity>)
    requires multiset(s) == multiset(t)
    ensures |s| == |t| && forall e :: e in s <==> e in t
  {
    assert |multiset(s)| == |s| && |multiset(t)| == |t|;
    forall e ensures e in s <==> e in t {
      assert e in s <==> e in multiset(s);
      assert e in t <==> e in multiset(t);
    }
  }

  lemma Cancel(a: multiset<Entity>, b: multiset<Entity>, e: Entity)
    requires a + multiset{e} == b + multiset{e}
    ensures a == b
  {
    forall x ensures a[x] == b[x] {
      assert (a + multiset{e})[x] == (b + multiset{e})[x];
    }
  }

  lemma SplitLast(s: seq<Entity>)
    requires s != []
    ensures multiset(s) == multiset(s[..|s| - 1]) + multiset{s[|s| - 1]}
  {
    assert s == s[..|s| - 1] + [s[|s| - 1]];
  }

  lemma DropLast(s: seq<Entity>, t: seq<Entity>)
    requires multiset(s) == multiset(t) && s != [] && t != [] && s[|s| - 1] == t[|t| - 1]
    ensures multiset(s[..|s| - 1]) == multiset(t[..|t| - 1])
  {
    SplitLast(s);
    SplitLast(t);
    Cancel(multiset(s[..|s| - 1]), multiset(t[..|t| - 1]), s[|s| - 1]);
  }

  /** Two ascending arrangements of the same entities agree when the keys tell them apart. */
  lemma {:induction false} AscendingUnique(s: seq<Entity>, t: seq<Entity>)
    requires multiset(s) == multiset(t) && Ascending(s) && Ascending(t) && KeysTell(s)
    ensures s == t
  {
    SameMembers(s, t);
    if s != [] {
      var s', t', e, f := s[..|s| - 1], t[..|t| - 1], s[|s| - 1], t[|t| - 1];
      assert e in t && f in s;
      LastIsTop(s, f);
      LastIsTop(t, e);
      KeyTotal(e, f);
      hide KeyLess, SameKey;
      assert e == f;
      DropLast(s, t);
      assert KeysTell(s') && Ascending(s') && Ascending(t');
      AscendingUnique(s', t');
      assert s == s' + [e] && t == t' + [f];
    }
  }

  lemma LastIsTop(s: seq<Entity>, e: Entity)
    requires Ascending(s) && e in s
    ensures !KeyLess(s[|s| - 1], e)
  {
    var i :| 0 <= i < |s| && s[i] == e;
    if i == |s| - 1 { KeyTotal(e, e); }
  }

  lemma SortedOrder(s: seq<Entity>, t: seq<Entity>)
    requires multiset(s) == multiset(t) && KeysTell(s)
    ensures Sorted(s) == Sorted(t)
  {
    SortedAscending(s);
    SortedAscending(t);
    SameMembers(s, Sorted(s));
    AscendingUnique(Sorted(s), Sorted(t));
  }

  function KeyOf(e: Entity): Entity -> bool {
    o => SameKey(o, e)
  }

  lemma FilterAppend(s: seq<Entity>, e: Entity, p: Entity -> bool)
    ensures Filter(s + [e], p) == Filter(s, p) + (if p(e) then [e] else [])
  {
    assert (s + [e])[..|s|] == s;
  }

  lemma LessIsNotSame(e: Entity, f: Entity, k: Entity)
    requires KeyLess(e, f)
    ensures !(SameKey(e, k) && SameKey(f, k))
  {
    LexTotal(e.id, f.id);
  }

  lemma {:induction false} InsertIsStable(s: seq<Entity>, e: Entity, k: Entity)
    ensures Filter(Insert(s, e), KeyOf(k)) == Filter(s, KeyOf(k)) + (if SameKey(e, k) then [e] else [])
  {
    hide Filter, SameKey;
    if s == [] || !KeyLess(e, s[|s| - 1]) {
      FilterAppend(s, e, KeyOf(k));
    } else {
      var front, last := s[..|s| - 1], s[|s| - 1];
      InsertIsStable(front, e, k);
      LessIsNotSame(e, last, k);
      FilterAppend(Insert(front, e), last, KeyOf(k));
      FilterAppend(front, last, KeyOf(k));
      assert front + [last] == s;
    }
    hide KeyLess;
  }

  /** Entities with equal keys stay in the order in which they came. */
  lemma {:induction false} SortedIsStable(s: seq<Entity>, k: Entity)
    ensures Filter(Sorted(s), KeyOf(k)) == Filter(s, KeyOf(k))
  {
    if s != [] {
      SortedIsStable(s[..|s| - 1], k);
      InsertIsStable(Sorted(s[..|s| - 1]), s[|s| - 1], k);
    }
  }

  // ---- the query ----------------------------------------------------------------------------------

  function NearTo(e: Entity, radius: Option<real>): Entity -> bool {
    o => Near(o, e, radius)
  }

  /** What the scan of the first n cells of the ring collects. */
  function Scan(buckets: Buckets, cell: Cell, e: Entity, radius: Option<real>, n: nat): seq<Entity>
    requires n <= 9
  {
    if n == 0 then []
    else Scan(buckets, cell, e, radius, n - 1) + Filter(BucketAt(buckets, RingCell(cell, n - 1)), NearTo(e, radius))
  }

  /** The source checks `max_out` only after an append, so a limit below 1 acts as 1. */
  function Limited(hits: seq<Entity>, maxOut: Option<int>): seq<Entity> {
    if maxOut.None? then hits
    else
      var limit := if maxOut.value < 1 then 1 else maxOut.value;
      if |hits| <= limit then hits else hits[..limit]
  }

  function Arranged(hits: seq<Entity>, deterministic: bool): seq<Entity> {
    if deterministic then Sorted(hits) else hits
  }

  /** What a query answers from the buckets. */
  function Answer(buckets: Buckets, cellSize: real, e: Entity, radius: Option<real>, maxOut: Option<int>,
                  deterministic: bool): seq<Entity>
    requires cellSize != 0.0
  {
    Arranged(Limited(Scan(buckets, CellOf(e, cellSize), e, radius, 9), maxOut), deterministic)
  }

  lemma {:induction false} FilterPrefix(s: seq<Entity>, n: nat, p: Entity -> bool)
    requires n <= |s|
    ensures Filter(s[..n], p) <= Filter(s, p)
    decreases |s|
  {
    if n < |s| {
      FilterPrefix(s[..|s| - 1], n, p);
      assert s[..|s| - 1][..n] == s[..n];
    } else {
      assert s[..n] == s;
    }
  }

  lemma {:induction false} ScanPrefix(buckets: Buckets, cell: Cell, e: Entity, radius: Option<real>, m: nat, n: nat)
    requires m <= n <= 9
    ensures Scan(buckets, cell, e, radius, m) <= Scan(buckets, cell, e, radius, n)
    decreases n
  {
    if m < n { ScanPrefix(buckets, cell, e, radius, m, n - 1); }
  }

  /** Not yet at the limit. */
  predicate Room(n: nat, maxOut: Option<int>) {
    maxOut.None? || n == 0 || n < maxOut.value
  }

  predicate Full(n: nat, maxOut: Option<int>) {
    maxOut.Some? && n >= 1 && n >= maxOut.value && (n == 1 || n == maxOut.value)
  }

  lemma LimitReached(out: seq<Entity>, part: seq<Entity>, all: seq<Entity>, maxOut: Option<int>)
    requires Full(|out|, maxOut) && out <= part <= all
    ensures Limited(all, maxOut) == out
  {
  }

  /** Collects the near entities of a bucket until the limit is reached, if it is. */
  method ScanBucket(bucket: seq<Entity>, e: Entity, radius: Option<real>, maxOut: Option<int>, already: nat)
    returns (more: seq<Entity>, full: bool)
    requires Room(already, maxOut)
    ensures full ==> more <= Filter(bucket, NearTo(e, radius)) && Full(already + |more|, maxOut)
    ensures !full ==> more == Filter(bucket, NearTo(e, radius)) && Room(already + |more|, maxOut)
  {
    hide Near;
    more := [];
    for i := 0 to |bucket|
      invariant more == Filter(bucket[..i], NearTo(e, radius)) && Room(already + |more|, maxOut)
    {
      assert bucket[..i + 1][..i] == bucket[..i];
      var other := bucket[i];
      if !Near(other, e, radius) {
        continue;
      }
      more := more + [other];
      if maxOut.Some? && already + |more| >= maxOut.value {
        FilterPrefix(bucket, i + 1, NearTo(e, radius));
        return more, true;
      }
    }
    assert bucket[..|bucket|] == bucket;
    full := false;
  }

  class SpatialHash {
    var cellSize: real
    var buckets: Buckets
    ghost var entities: seq<Entity>

    /** The buckets index the entities of the last build. */
    ghost predicate Valid()
      reads this
    {
      cellSize != 0.0 && Indexes(buckets, entities, cellSize)
    }

    /** Clears and refills the buckets. */
    method Build(entities: seq<Entity>, cellSize: real)
      requires cellSize != 0.0
      modifies this
      ensures Valid() && this.entities == entities && this.cellSize == cellSize
    {
      this.cellSize := cellSize;
      buckets := map[];
      for i := 0 to |entities|
        invariant this.cellSize == cellSize && Indexes(buckets, entities[..i], cellSize)
      {
        var entity := entities[i];
        var cell := CellOf(entity, cellSize);
        AppendIndexes(buckets, entities[..i], entity, cellSize);
        assert entities[..i] + [entity] == entities[..i + 1];
        hide Indexes;
        if cell !in buckets {
          buckets := buckets[cell := []];
        }
        buckets := buckets[cell := buckets[cell] + [entity]];
      }
      assert entities[..|entities|] == entities;
      this.entities := entities;
    }

    method QueryNeighbors(e: Entity, radius: Option<real>, maxOut: Option<int>, deterministic: bool)
      returns (out: seq<Entity>)
      requires Valid()
      ensures out == Answer(buckets, cellSize, e, radius, maxOut, deterministic)
    {
      hide Near, Sorted, Filter;
      out := [];
      var cell := CellOf(e, cellSize);
      for k := 0 to 9
        invariant out == Scan(buckets, cell, e, radius, k) && Room(|out|, maxOut)
      {
        var more, full := ScanBucket(BucketAt(buckets, RingCell(cell, k)), e, radius, maxOut, |out|);
        out := out + more;
        if full {
          ScanPrefix(buckets, cell, e, radius, k + 1, 9);
          LimitReached(out, Scan(buckets, cell, e, radius, k + 1), Scan(buckets, cell, e, radius, 9), maxOut);
          out := Arranged(out, deterministic);
          return;
        }
      }
      out := Arranged(out, deterministic);
    }
  }
}
