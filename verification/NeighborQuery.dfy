/** What the 3x3 query finds: exactly the near entities, when the radius is at most a cell; and when
    its answer depends on the order in which the entities were inserted. */
module NeighborQuery {
  import opened Wrappers
  import opened Sums
  import opened SpatialHash

  // ---- the ring covers a cell size ------------------------------------------------------------

  lemma SquaresGrow(x: real, y: real)
    requires 0.0 <= x <= y
    ensures Square(x) <= Square(y) && (x < y ==> Square(x) < Square(y))
  {
    var d := y - x;
    assert y * y == x * x + 2.0 * (x * d) + d * d;
    assert x * d >= 0.0 && (d > 0.0 ==> d * d > 0.0);
  }

  lemma FloorNear(p: real, q: real)
    requires -1.0 <= p - q <= 1.0
    ensures -1 <= p.Floor - q.Floor <= 1
  {
  }

  lemma QuotientNear(x: real, y: real, c: real)
    requires c != 0.0 && Abs(x - y) <= Abs(c)
    ensures -1.0 <= x / c - y / c <= 1.0
  {
    var q := x / c - y / c;
    if c > 0.0 {
      DivideBounds(x - y, c, -1.0, 1.0);
      assert (x - y) / c == q;
    } else {
      DivideBounds(y - x, -c, -1.0, 1.0);
      assert (y - x) / -c == q;
    }
  }

  lemma SquareOfAbs(x: real)
    ensures Square(Abs(x)) == Square(x)
  {
  }

  lemma SquareBound(x: real, y: real, r: real)
    requires Square(x) + Square(y) <= Square(r)
    ensures Abs(x) <= Abs(r)
  {
    assert Square(y) >= 0.0;
    if Abs(x) > Abs(r) {
      SquaresGrow(Abs(r), Abs(x));
      SquareOfAbs(x);
      SquareOfAbs(r);
    }
  }

  /** Near is within the distance, the distance included. */
  lemma NearIff(o: Entity, e: Entity, r: real)
    ensures Near(o, e, Some(r)) <==> (o.x - e.x) * (o.x - e.x) + (o.z - e.z) * (o.z - e.z) <= r * r
    ensures Near(o, e, None)
  {
  }

  /** A cell is a square of the given size, its lower edges included. */
  lemma CellIsItsSquare(e: Entity, size: real, i: int, j: int)
    requires size > 0.0
    ensures CellOf(e, size) == (i, j) <==>
      i as real * size <= e.x < (i + 1) as real * size && j as real * size <= e.z < (j + 1) as real * size
  {
    QuotientFloorIff(e.x, size, i);
    QuotientFloorIff(e.z, size, j);
  }

  /** The ring is scanned by x, then by z, and reaches one cell in every direction. */
  lemma RingInOrder(cell: Cell, j: nat, k: nat)
    requires j < k < 9
    ensures var a, b := RingCell(cell, j), RingCell(cell, k);
      && (a.0 < b.0 || (a.0 == b.0 && a.1 < b.1))
      && cell.0 - 1 <= a.0 <= cell.0 + 1 && cell.1 - 1 <= b.1 <= cell.1 + 1
  {
  }

  predicate Among(o: Cell, cell: Cell, n: nat)
    requires n <= 9
  {
    exists k :: 0 <= k < n && o == RingCell(cell, k)
  }

  lemma RingHas(o: Cell, cell: Cell)
    requires -1 <= o.0 - cell.0 <= 1 && -1 <= o.1 - cell.1 <= 1
    ensures Among(o, cell, 9)
  {
    var k := 3 * (o.0 - cell.0 + 1) + (o.1 - cell.1 + 1);
    assert k / 3 == o.0 - cell.0 + 1 && k % 3 == o.1 - cell.1 + 1;
    assert o == RingCell(cell, k);
  }

  lemma RingInjective(cell: Cell, j: nat, k: nat)
    requires j < 9 && k < 9 && RingCell(cell, j) == RingCell(cell, k)
    ensures j == k
  {
    assert j == 3 * (j / 3) + j % 3 && k == 3 * (k / 3) + k % 3;
  }

  lemma NearIsInRing(o: Entity, e: Entity, cellSize: real, radius: real)
    requires cellSize != 0.0 && Abs(radius) <= Abs(cellSize) && Near(o, e, Some(radius))
    ensures Among(CellOf(o, cellSize), CellOf(e, cellSize), 9)
  {
    SquareBound(o.x - e.x, o.z - e.z, radius);
    SquareBound(o.z - e.z, o.x - e.x, radius);
    QuotientNear(o.x, e.x, cellSize);
    QuotientNear(o.z, e.z, cellSize);
    FloorNear(o.x / cellSize, e.x / cellSize);
    FloorNear(o.z / cellSize, e.z / cellSize);
    RingHas(CellOf(o, cellSize), CellOf(e, cellSize));
  }

  // ---- the scan as a filter ---------------------------------------------------------------------

  /** Near e, and in one of the first n cells of the ring. */
  function Picked(cellSize: real, cell: Cell, e: Entity, radius: Option<real>, n: nat): Entity -> bool
    requires cellSize != 0.0 && n <= 9
  {
    o => Near(o, e, radius) && Among(CellOf(o, cellSize), cell, n)
  }

  lemma {:induction false} FilterNone(s: seq<Entity>, p: Entity -> bool)
    requires forall e :: e in s ==> !p(e)
    ensures Filter(s, p) == []
  {
    if s != [] { FilterNone(s[..|s| - 1], p); }
  }

  lemma {:induction false} ScanPicks(buckets: Buckets, entities: seq<Entity>, cellSize: real, cell: Cell, e: Entity,
                                     radius: Option<real>, n: nat)
    requires cellSize != 0.0 && n <= 9 && Indexes(buckets, entities, cellSize)
    ensures multiset(Scan(buckets, cell, e, radius, n))
         == multiset(Filter(entities, Picked(cellSize, cell, e, radius, n)))
  {
    hide Near, CellOf, Square;
    if n == 0 {
      hide Indexes;
      FilterNone(entities, Picked(cellSize, cell, e, radius, 0));
    } else {
      ScanPicks(buckets, entities, cellSize, cell, e, radius, n - 1);
      assert BucketAt(buckets, RingCell(cell, n - 1)) == Filter(entities, InCell(cellSize, RingCell(cell, n - 1)));
      hide Indexes, Filter, Among, RingCell;
      PickedStep(entities, cellSize, cell, e, radius, n - 1);
    }
  }

  lemma PickedStep(entities: seq<Entity>, cellSize: real, cell: Cell, e: Entity, radius: Option<real>, k: nat)
    requires cellSize != 0.0 && k < 9
    ensures multiset(Filter(entities, Picked(cellSize, cell, e, radius, k + 1)))
         == multiset(Filter(entities, Picked(cellSize, cell, e, radius, k)))
          + multiset(Filter(Filter(entities, InCell(cellSize, RingCell(cell, k))), NearTo(e, radius)))
  {
    var here := RingCell(cell, k);
    forall o: Cell ensures Among(o, cell, k + 1) <==> Among(o, cell, k) || o == here {
      AmongStep(o, cell, k);
    }
    AmongFresh(cell, k);
    hide Near, CellOf, Among, RingCell, Filter;
    var both := o => CellOf(o, cellSize) == here && Near(o, e, radius);
    FilterTwice(entities, InCell(cellSize, here), NearTo(e, radius), both);
    FilterSplit(entities, Picked(cellSize, cell, e, radius, k), both, Picked(cellSize, cell, e, radius, k + 1));
  }

  lemma AmongStep(o: Cell, cell: Cell, k: nat)
    requires k < 9
    ensures Among(o, cell, k + 1) <==> Among(o, cell, k) || o == RingCell(cell, k)
  {
  }

  lemma AmongFresh(cell: Cell, k: nat)
    requires k < 9
    ensures !Among(RingCell(cell, k), cell, k)
  {
    if Among(RingCell(cell, k), cell, k) {
      var j :| 0 <= j < k && RingCell(cell, k) == RingCell(cell, j);
      RingInjective(cell, j, k);
    }
  }

  // ---- the query against brute force -----------------------------------------------------------------

  /** The scan finds what a filter over all entities finds, each as often, whatever the entities. */
  ghost predicate RingSuffices(cellSize: real, radius: real)
    requires cellSize != 0.0
  {
    forall buckets: Buckets, entities: seq<Entity>, e: Entity :: Indexes(buckets, entities, cellSize) ==>
      FindsNear(buckets, entities, cellSize, e, radius)
  }

  ghost predicate FindsNear(buckets: Buckets, entities: seq<Entity>, cellSize: real, e: Entity, radius: real)
    requires cellSize != 0.0
  {
    multiset(Scan(buckets, CellOf(e, cellSize), e, Some(radius), 9)) ==
        multiset(Filter(entities, NearTo(e, Some(radius))))
  }

  lemma RingFindsNear(buckets: Buckets, entities: seq<Entity>, cellSize: real, e: Entity, radius: real)
    requires cellSize != 0.0 && Abs(radius) <= Abs(cellSize) && Indexes(buckets, entities, cellSize)
    ensures FindsNear(buckets, entities, cellSize, e, radius)
  {
    hide Indexes, Near, CellOf, Among, Filter, Abs;
    var cell := CellOf(e, cellSize);
    ScanPicks(buckets, entities, cellSize, cell, e, Some(radius), 9);
    var near, picked := NearTo(e, Some(radius)), Picked(cellSize, cell, e, Some(radius), 9);
    forall o ensures near(o) == picked(o) {
      if Near(o, e, Some(radius)) {
        NearIsInRing(o, e, cellSize, radius);
      }
    }
    FilterSame(entities, near, picked);
  }

  /** How far into its cell an entity can stand and still be within r of the cell after next. */
  lemma ShareFits(a: real, r: real) returns (share: real)
    requires 0.0 < a < r
    ensures 0.0 <= share < 1.0 && 0.0 <= a * (2.0 - share) <= r
  {
    if r >= 2.0 * a {
      share := 0.0;
    } else {
      var q := r / a;
      assert q * a == r;
      if q <= 1.0 { SignOfProduct(1.0 - q, a); }
      if q >= 2.0 { SignOfProduct(q - 2.0, a); }
      share := 2.0 - q;
    }
  }

  lemma ScaledDistance(c: real, share: real)
    ensures Square(c * 2.0 - c * share) == Square(Abs(c) * (2.0 - share))
    ensures c != 0.0 ==> c * share / c == share
  {
    var t := 2.0 - share;
    assert c * 2.0 - c * share == c * t;
    assert (-c) * t == -(c * t);
  }

  /** An entity within a radius beyond the cell size, two cells away. */
  lemma TooFar(cellSize: real, radius: real) returns (e: Entity, o: Entity)
    requires cellSize != 0.0 && Abs(radius) > Abs(cellSize)
    ensures Near(o, e, Some(radius)) && CellOf(e, cellSize) == (0, 0) && CellOf(o, cellSize) == (2, 0)
  {
    var share := ShareFits(Abs(cellSize), Abs(radius));
    ScaledDistance(cellSize, share);
    ScaledDistance(cellSize, 2.0);
    SquareOfAbs(radius);
    SquaresGrow(Abs(cellSize) * (2.0 - share), Abs(radius));
    assert Square(0.0) == 0.0;
    assert 0.0 / cellSize == 0.0;
    hide Square, Abs;
    assert (cellSize * share / cellSize).Floor == 0 && (cellSize * 2.0 / cellSize).Floor == 2;
    e := Entity("", cellSize * share, 0.0, 0);
    o := Entity("", cellSize * 2.0, 0.0, 1);
  }

  /** The 3x3 query agrees with brute force exactly when the radius is at most the cell size. */
  lemma RingSufficesIff(cellSize: real, radius: real)
    requires cellSize != 0.0
    ensures RingSuffices(cellSize, radius) <==> Abs(radius) <= Abs(cellSize)
  {
    if Abs(radius) <= Abs(cellSize) {
      hide Indexes, FindsNear;
      forall buckets: Buckets, entities: seq<Entity>, e: Entity | Indexes(buckets, entities, cellSize)
        ensures FindsNear(buckets, entities, cellSize, e, radius)
      {
        RingFindsNear(buckets, entities, cellSize, e, radius);
      }
    } else {
      var e, o := TooFar(cellSize, radius);
      var buckets := Append(map[], CellOf(o, cellSize), o);
      EmptyIndexes(cellSize);
      AppendIndexes(map[], [], o, cellSize);
      assert [] + [o] == [o];
      hide Indexes, CellOf, Near;
      FarIsMissed(buckets, cellSize, e, o, radius);
      assert Indexes(buckets, [o], cellSize) && !FindsNear(buckets, [o], cellSize, e, radius);
    }
  }

  lemma EmptyIndexes(cellSize: real)
    requires cellSize != 0.0
    ensures Indexes(map[], [], cellSize)
  {
  }

  lemma FarIsMissed(buckets: Buckets, cellSize: real, e: Entity, o: Entity, radius: real)
    requires cellSize != 0.0 && Indexes(buckets, [o], cellSize) && Near(o, e, Some(radius))
    requires CellOf(e, cellSize) == (0, 0) && CellOf(o, cellSize) == (2, 0)
    ensures !FindsNear(buckets, [o], cellSize, e, radius)
  {
    ScanPicks(buckets, [o], cellSize, (0, 0), e, Some(radius), 9);
    hide Indexes, CellOf, Near;
    var picked, near := Picked(cellSize, (0, 0), e, Some(radius), 9), NearTo(e, Some(radius));
    assert !picked(o) && near(o);
    FilterCounts([o], picked, o);
    FilterCounts([o], near, o);
  }

  // ---- the order of insertion ----------------------------------------------------------------------

  /** The hits of the first n cells of the ring, by brute force. */
  function Found(entities: seq<Entity>, cellSize: real, e: Entity, radius: Option<real>, n: nat): seq<Entity>
    requires cellSize != 0.0 && n <= 9
  {
    Filter(entities, Picked(cellSize, CellOf(e, cellSize), e, radius, n))
  }

  function LimitOf(maxOut: int): nat {
    if maxOut < 1 then 1 else maxOut
  }

  /** The limit is met exactly when the first n cells have been scanned; or it is never exceeded, and
      n is all of them. */
  predicate StopsAfter(entities: seq<Entity>, cellSize: real, e: Entity, radius: Option<real>, maxOut: Option<int>,
                       n: nat)
    requires cellSize != 0.0 && n <= 9
  {
    var found := |Found(entities, cellSize, e, radius, n)|;
    if maxOut.None? then n == 9
    else found == LimitOf(maxOut.value) || (n == 9 && found <= LimitOf(maxOut.value))
  }

  lemma FoundIsScan(buckets: Buckets, entities: seq<Entity>, cellSize: real, e: Entity, radius: Option<real>, n: nat)
    requires cellSize != 0.0 && Indexes(buckets, entities, cellSize) && n <= 9
    ensures var hits := Scan(buckets, CellOf(e, cellSize), e, radius, n);
      && multiset(hits) == multiset(Found(entities, cellSize, e, radius, n))
      && |hits| == |Found(entities, cellSize, e, radius, n)|
  {
    ScanPicks(buckets, entities, cellSize, CellOf(e, cellSize), e, radius, n);
    hide Indexes, Near, Scan, Filter, Picked;
    SameMembers(Scan(buckets, CellOf(e, cellSize), e, radius, n), Found(entities, cellSize, e, radius, n));
  }

  lemma StopsAlike(entities: seq<Entity>, entities': seq<Entity>, cellSize: real, e: Entity, radius: Option<real>,
                   maxOut: Option<int>, n: nat)
    requires cellSize != 0.0 && n <= 9 && multiset(entities) == multiset(entities')
    requires StopsAfter(entities, cellSize, e, radius, maxOut, n)
    ensures StopsAfter(entities', cellSize, e, radius, maxOut, n)
  {
    FilterOrder(entities, entities', Picked(cellSize, CellOf(e, cellSize), e, radius, n));
    hide Filter;
    SameMembers(Found(entities, cellSize, e, radius, n), Found(entities', cellSize, e, radius, n));
  }

  lemma StoppedAnswer(buckets: Buckets, entities: seq<Entity>, cellSize: real, e: Entity, radius: Option<real>,
                      maxOut: Option<int>, n: nat)
    requires cellSize != 0.0 && n <= 9 && Indexes(buckets, entities, cellSize)
    requires StopsAfter(entities, cellSize, e, radius, maxOut, n)
    ensures Answer(buckets, cellSize, e, radius, maxOut, true) ==
      Sorted(Scan(buckets, CellOf(e, cellSize), e, radius, n))
  {
    var cell := CellOf(e, cellSize);
    FoundIsScan(buckets, entities, cellSize, e, radius, n);
    ScanPrefix(buckets, cell, e, radius, n, 9);
    hide Indexes, CellOf, Scan, Sorted, Found, Limited;
    LimitedTo(Scan(buckets, cell, e, radius, 9), Scan(buckets, cell, e, radius, n), maxOut);
  }

  lemma LimitedTo(all: seq<Entity>, part: seq<Entity>, maxOut: Option<int>)
    requires part <= all && (maxOut.None? ==> part == all)
    requires maxOut.Some? ==>
               |part| == LimitOf(maxOut.value) || (part == all && |all| <= LimitOf(maxOut.value))
    ensures Limited(all, maxOut) == part
  {
  }

  lemma KeysTellAlike(s: seq<Entity>, t: seq<Entity>)
    requires multiset(s) == multiset(t) && KeysTell(s)
    ensures KeysTell(t)
  {
    SameMembers(s, t);
  }

  lemma ScansAgree(buckets: Buckets, entities: seq<Entity>, buckets': Buckets, entities': seq<Entity>, cellSize: real,
                   e: Entity, radius: Option<real>, n: nat)
    requires cellSize != 0.0 && n <= 9 && Indexes(buckets, entities, cellSize) && Indexes(buckets', entities', cellSize)
    requires multiset(entities) == multiset(entities')
    ensures var cell := CellOf(e, cellSize);
            multiset(Scan(buckets, cell, e, radius, n)) == multiset(Scan(buckets', cell, e, radius, n))
            && |Scan(buckets, cell, e, radius, n)| == |Scan(buckets', cell, e, radius, n)|
  {
    var cell := CellOf(e, cellSize);
    ScanPicks(buckets, entities, cellSize, cell, e, radius, n);
    ScanPicks(buckets', entities', cellSize, cell, e, radius, n);
    FilterOrder(entities, entities', Picked(cellSize, cell, e, radius, n));
    hide Indexes, Filter, Near, Among, Scan;
    SameMembers(Scan(buckets, cell, e, radius, n), Scan(buckets', cell, e, radius, n));
  }

  /** Two orders of insertion of the same entities get the same answer. */
  ghost predicate SameAnswer(buckets: Buckets, buckets': Buckets, cellSize: real, e: Entity, radius: Option<real>,
                             maxOut: Option<int>)
    requires cellSize != 0.0
  {
    Answer(buckets, cellSize, e, radius, maxOut, true) == Answer(buckets', cellSize, e, radius, maxOut, true)
  }

  /** The limit is reached inside the n-th cell of the ring, with hits of that cell left over. */
  ghost predicate CutsCell(buckets: Buckets, cell: Cell, e: Entity, radius: Option<real>, limit: nat, n: nat) {
    n < 9 && |Scan(buckets, cell, e, radius, n)| < limit < |Scan(buckets, cell, e, radius, n + 1)|
  }

  predicate NoRepeats(entities: seq<Entity>) {
    forall i, j :: 0 <= i < j < |entities| ==> entities[i] != entities[j]
  }

  /** The answer is the same for every order of insertion. */
  ghost predicate OrderProof(buckets: Buckets, entities: seq<Entity>, cellSize: real, e: Entity,
                             radius: Option<real>, maxOut: Option<int>)
    requires cellSize != 0.0
  {
    forall buckets': Buckets, entities': seq<Entity> ::
      Indexes(buckets', entities', cellSize) && multiset(entities) == multiset(entities') ==>
      SameAnswer(buckets, buckets', cellSize, e, radius, maxOut)
  }

  /** Whole cells, and hits told apart by their keys: one sorted list, however they came in. */
  lemma ToldApartIsOrderProof(buckets: Buckets, entities: seq<Entity>, cellSize: real, e: Entity,
                              radius: Option<real>, maxOut: Option<int>, n: nat)
    requires cellSize != 0.0 && n <= 9 && Indexes(buckets, entities, cellSize)
    requires StopsAfter(entities, cellSize, e, radius, maxOut, n) && KeysTell(Found(entities, cellSize, e, radius, n))
    ensures OrderProof(buckets, entities, cellSize, e, radius, maxOut)
  {
    var hits := Scan(buckets, CellOf(e, cellSize), e, radius, n);
    FoundIsScan(buckets, entities, cellSize, e, radius, n);
    KeysTellAlike(Found(entities, cellSize, e, radius, n), hits);
    StoppedAnswer(buckets, entities, cellSize, e, radius, maxOut, n);
    hide Indexes, CellOf, Scan, Sorted, KeysTell, StopsAfter, Found, Answer;
    forall buckets': Buckets, entities': seq<Entity>
      | Indexes(buckets', entities', cellSize) && multiset(entities) == multiset(entities')
      ensures SameAnswer(buckets, buckets', cellSize, e, radius, maxOut)
    {
      StopsAlike(entities, entities', cellSize, e, radius, maxOut, n);
      StoppedAnswer(buckets', entities', cellSize, e, radius, maxOut, n);
      ScansAgree(buckets, entities, buckets', entities', cellSize, e, radius, n);
      SortedOrder(hits, Scan(buckets', CellOf(e, cellSize), e, radius, n));
    }
  }

  // ---- hits with equal keys leak the order of insertion -----------------------------------------------

  lemma {:induction false} FilterConcat(s: seq<Entity>, t: seq<Entity>, p: Entity -> bool)
    ensures Filter(s + t, p) == Filter(s, p) + Filter(t, p)
  {
    if t == [] {
      assert s + t == s;
    } else {
      FilterConcat(s, t[..|t| - 1], p);
      assert (s + t)[..|s + t| - 1] == s + t[..|t| - 1];
    }
  }

  /** Entities with the key of a stand where a stands: a scan finds all of them together, in the order
      of insertion. */
  lemma {:induction false} ScanKeepsKeyOrder(buckets: Buckets, entities: seq<Entity>, cellSize: real, e: Entity,
                                             radius: Option<real>, n: nat, a: Entity)
    requires cellSize != 0.0 && n <= 9 && Indexes(buckets, entities, cellSize) && Near(a, e, radius)
    ensures Filter(Scan(buckets, CellOf(e, cellSize), e, radius, n), KeyOf(a)) ==
      if Among(CellOf(a, cellSize), CellOf(e, cellSize), n) then Filter(entities, KeyOf(a)) else []
  {
    hide Indexes, Near, RingCell, CellOf, Filter, Scan, Among;
    if n == 0 {
      NoCellYet(buckets, CellOf(e, cellSize), e, radius, CellOf(a, cellSize), KeyOf(a));
    } else {
      ScanKeepsKeyOrder(buckets, entities, cellSize, e, radius, n - 1, a);
      AmongStep(CellOf(a, cellSize), CellOf(e, cellSize), n - 1);
      AmongFresh(CellOf(e, cellSize), n - 1);
      OneMoreCell(buckets, entities, cellSize, e, radius, n - 1, a);
    }
  }

  lemma NoCellYet(buckets: Buckets, cell: Cell, e: Entity, radius: Option<real>, o: Cell, p: Entity -> bool)
    ensures Filter(Scan(buckets, cell, e, radius, 0), p) == [] && !Among(o, cell, 0)
  {
  }

  lemma OneMoreCell(buckets: Buckets, entities: seq<Entity>, cellSize: real, e: Entity, radius: Option<real>,
                    n: nat, a: Entity)
    requires cellSize != 0.0 && n < 9 && Indexes(buckets, entities, cellSize) && Near(a, e, radius)
    ensures var cell := CellOf(e, cellSize);
      Filter(Scan(buckets, cell, e, radius, n + 1), KeyOf(a)) == Filter(Scan(buckets, cell, e, radius, n), KeyOf(a))
        + (if CellOf(a, cellSize) == RingCell(cell, n) then Filter(entities, KeyOf(a)) else [])
  {
    var cell := CellOf(e, cellSize);
    var here := RingCell(cell, n);
    assert BucketAt(buckets, here) == Filter(entities, InCell(cellSize, here));
    BucketKeepsKeyOrder(entities, cellSize, here, e, radius, a);
    FilterConcat(Scan(buckets, cell, e, radius, n), Filter(BucketAt(buckets, here), NearTo(e, radius)), KeyOf(a));
    hide Indexes, Near, Filter, RingCell, CellOf, BucketAt;
  }

  lemma BucketKeepsKeyOrder(entities: seq<Entity>, cellSize: real, here: Cell, e: Entity, radius: Option<real>,
                            a: Entity)
    requires cellSize != 0.0 && Near(a, e, radius)
    ensures Filter(Filter(Filter(entities, InCell(cellSize, here)), NearTo(e, radius)), KeyOf(a)) ==
      if CellOf(a, cellSize) == here then Filter(entities, KeyOf(a)) else []
  {
    var hit := o => CellOf(o, cellSize) == here && Near(o, e, radius);
    var tied := o => hit(o) && SameKey(o, a);
    FilterTwice(entities, InCell(cellSize, here), NearTo(e, radius), hit);
    FilterTwice(entities, hit, KeyOf(a), tied);
    forall o: Entity ensures SameKey(o, a) ==> CellOf(o, cellSize) == CellOf(a, cellSize) && Near(o, e, radius) {
    }
    hide Near, CellOf, Filter;
    if CellOf(a, cellSize) == here {
      FilterSame(entities, tied, KeyOf(a));
    } else {
      FilterNone(entities, tied);
    }
  }

  /** Inserted first, an entity comes first among those with its key. */
  lemma FirstAmongTied(buckets: Buckets, entities: seq<Entity>, cellSize: real, e: Entity, radius: Option<real>,
                       maxOut: Option<int>, n: nat, a: Entity, k: Entity)
    requires cellSize != 0.0 && n <= 9 && Indexes(buckets, entities, cellSize)
    requires StopsAfter(entities, cellSize, e, radius, maxOut, n)
    requires Near(k, e, radius) && Among(CellOf(k, cellSize), CellOf(e, cellSize), n)
    requires entities != [] && entities[0] == a && SameKey(a, k)
    ensures var tied := Filter(Answer(buckets, cellSize, e, radius, maxOut, true), KeyOf(k));
      tied != [] && tied[0] == a
  {
    StoppedAnswer(buckets, entities, cellSize, e, radius, maxOut, n);
    SortedIsStable(Scan(buckets, CellOf(e, cellSize), e, radius, n), k);
    ScanKeepsKeyOrder(buckets, entities, cellSize, e, radius, n, k);
    hide Indexes, Near, CellOf, Among, Scan, Sorted, StopsAfter, Filter, Answer;
    FilterHead(entities, KeyOf(k));
  }

  /** Two hits with one key: whichever was inserted first is named first. */
  lemma TieLeaksOrder(buckets: Buckets, entities: seq<Entity>, cellSize: real, e: Entity, radius: Option<real>,
                      maxOut: Option<int>, n: nat)
    requires cellSize != 0.0 && n <= 9 && Indexes(buckets, entities, cellSize)
    requires StopsAfter(entities, cellSize, e, radius, maxOut, n) && !KeysTell(Found(entities, cellSize, e, radius, n))
    ensures !OrderProof(buckets, entities, cellSize, e, radius, maxOut)
  {
    var found := Found(entities, cellSize, e, radius, n);
    var a, b :| a in found && b in found && SameKey(a, b) && a != b;
    FilterMembers(entities, Picked(cellSize, CellOf(e, cellSize), e, radius, n), a);
    FilterMembers(entities, Picked(cellSize, CellOf(e, cellSize), e, radius, n), b);
    hide Indexes, Near, CellOf, Among, Filter, Found, StopsAfter, Answer, KeysTell;
    var entities' := MoveToFront(entities, a);
    var entities'' := MoveToFront(entities, b);
    var buckets' := HasIndex(entities', cellSize);
    var buckets'' := HasIndex(entities'', cellSize);
    StopsAlike(entities, entities', cellSize, e, radius, maxOut, n);
    StopsAlike(entities, entities'', cellSize, e, radius, maxOut, n);
    FirstAmongTied(buckets', entities', cellSize, e, radius, maxOut, n, a, a);
    FirstAmongTied(buckets'', entities'', cellSize, e, radius, maxOut, n, b, a);
    assert !SameAnswer(buckets, buckets', cellSize, e, radius, maxOut)
        || !SameAnswer(buckets, buckets'', cellSize, e, radius, maxOut);
  }

  // ---- a limit that cuts a cell leaks the order of insertion ------------------------------------------

  lemma {:induction false} HasIndex(entities: seq<Entity>, cellSize: real) returns (buckets: Buckets)
    requires cellSize != 0.0
    ensures Indexes(buckets, entities, cellSize)
  {
    if entities == [] {
      EmptyIndexes(cellSize);
      buckets := map[];
    } else {
      hide Indexes;
      var front, last := entities[..|entities| - 1], entities[|entities| - 1];
      var before := HasIndex(front, cellSize);
      AppendIndexes(before, front, last, cellSize);
      assert front + [last] == entities;
      buckets := Append(before, CellOf(last, cellSize), last);
    }
  }

  lemma {:induction false} FilterHead(s: seq<Entity>, p: Entity -> bool)
    requires s != [] && p(s[0])
    ensures Filter(s, p) != [] && Filter(s, p)[0] == s[0]
  {
    if |s| > 1 { FilterHead(s[..|s| - 1], p); }
  }

  lemma {:induction false} FilterMembers(s: seq<Entity>, p: Entity -> bool, e: Entity)
    requires e in Filter(s, p)
    ensures e in s && p(e)
  {
    assert e in multiset(Filter(s, p));
    FilterCounts(s, p, e);
    assert e in multiset(s);
  }

  lemma MoveToFront(s: seq<Entity>, e: Entity) returns (t: seq<Entity>)
    requires e in s
    ensures multiset(t) == multiset(s) && t != [] && t[0] == e
  {
    var i :| 0 <= i < |s| && s[i] == e;
    t := [e] + (s[..i] + s[i + 1..]);
    assert s == s[..i] + [e] + s[i + 1..];
  }

  lemma {:induction false} OnceOnly(s: seq<Entity>, e: Entity)
    requires NoRepeats(s)
    ensures multiset(s)[e] <= 1
  {
    if s != [] {
      OnceOnly(s[..|s| - 1], e);
      SplitLast(s);
      if s[|s| - 1] == e { assert e !in s[..|s| - 1]; }
    }
  }

  lemma LastOfOne(s: seq<Entity>, n: nat)
    requires n < |s| && multiset(s)[s[|s| - 1]] <= 1
    ensures s[|s| - 1] !in s[..n]
  {
    SplitLast(s);
    assert multiset(s[..|s| - 1])[s[|s| - 1]] == 0;
    assert s[|s| - 1] !in s[..|s| - 1] && s[..n] <= s[..|s| - 1];
  }

  lemma LimitedCut(all: seq<Entity>, part: seq<Entity>, limit: nat)
    requires 1 <= limit < |part| && part <= all
    ensures Limited(all, Some(limit)) == part[..limit]
  {
  }

  lemma SortedKeepsMembers(s: seq<Entity>, t: seq<Entity>, e: Entity)
    requires e in s && e !in t
    ensures Sorted(s) != Sorted(t)
  {
    assert e in multiset(s) && e !in multiset(t);
  }

  /** The last hit of the cell that the limit cuts. */
  lemma CutLosesLast(buckets: Buckets, entities: seq<Entity>, cellSize: real, e: Entity, radius: Option<real>,
                     limit: nat, n: nat)
    returns (lost: Entity)
    requires cellSize != 0.0 && Indexes(buckets, entities, cellSize) && NoRepeats(entities) && limit >= 1
    requires CutsCell(buckets, CellOf(e, cellSize), e, radius, limit, n)
    ensures lost in entities && CellOf(lost, cellSize) == RingCell(CellOf(e, cellSize), n) && Near(lost, e, radius)
    ensures lost !in Limited(Scan(buckets, CellOf(e, cellSize), e, radius, 9), Some(limit))
  {
    var cell := CellOf(e, cellSize);
    var here := RingCell(cell, n);
    var hits := Filter(BucketAt(buckets, here), NearTo(e, radius));
    var part := Scan(buckets, cell, e, radius, n + 1);
    assert part == Scan(buckets, cell, e, radius, n) + hits;
    lost := part[|part| - 1];
    assert BucketAt(buckets, here) == Filter(entities, InCell(cellSize, here));
    ScanPrefix(buckets, cell, e, radius, n + 1, 9);
    LimitedCut(Scan(buckets, cell, e, radius, 9), part, limit);
    ScanPicks(buckets, entities, cellSize, cell, e, radius, n + 1);
    hide Indexes, Near, CellOf, Among, Filter, Scan, RingCell, Limited;
    assert lost in hits;
    FilterMembers(BucketAt(buckets, here), NearTo(e, radius), lost);
    FilterMembers(entities, InCell(cellSize, here), lost);
    FilterCounts(entities, Picked(cellSize, cell, e, radius, n + 1), lost);
    OnceOnly(entities, lost);
    LastOfOne(part, limit);
  }

  lemma FirstHit(entities: seq<Entity>, p: Entity -> bool, q: Entity -> bool, first: Entity)
    requires entities != [] && entities[0] == first && p(first) && q(first)
    ensures var hits := Filter(Filter(entities, p), q);
            hits != [] && hits[0] == first
  {
    FilterHead(entities, p);
    FilterHead(Filter(entities, p), q);
  }

  lemma FoundBeforeLimit(all: seq<Entity>, before: seq<Entity>, hits: seq<Entity>, limit: nat)
    requires before + hits <= all && hits != [] && |before| < limit < |before + hits|
    ensures hits[0] in Limited(all, Some(limit))
  {
    LimitedCut(all, before + hits, limit);
    assert (before + hits)[..limit][|before|] == hits[0];
  }

  /** Inserted first, it is found. */
  lemma FirstIsFound(buckets: Buckets, entities: seq<Entity>, cellSize: real, e: Entity, radius: Option<real>,
                     limit: nat, n: nat, first: Entity)
    requires cellSize != 0.0 && Indexes(buckets, entities, cellSize) && limit >= 1
    requires CutsCell(buckets, CellOf(e, cellSize), e, radius, limit, n)
    requires entities != [] && entities[0] == first && Near(first, e, radius)
    requires CellOf(first, cellSize) == RingCell(CellOf(e, cellSize), n)
    ensures first in Limited(Scan(buckets, CellOf(e, cellSize), e, radius, 9), Some(limit))
  {
    var cell := CellOf(e, cellSize);
    var here := RingCell(cell, n);
    var before := Scan(buckets, cell, e, radius, n);
    var hits := Filter(BucketAt(buckets, here), NearTo(e, radius));
    assert Scan(buckets, cell, e, radius, n + 1) == before + hits;
    assert BucketAt(buckets, here) == Filter(entities, InCell(cellSize, here));
    ScanPrefix(buckets, cell, e, radius, n + 1, 9);
    hide Indexes, Near, CellOf, Filter, Scan, RingCell, Limited, BucketAt;
    FirstHit(entities, InCell(cellSize, here), NearTo(e, radius), first);
    FoundBeforeLimit(Scan(buckets, cell, e, radius, 9), before, hits, limit);
  }

  lemma LimitBelowOne(hits: seq<Entity>, maxOut: int)
    ensures LimitOf(maxOut) >= 1 && Limited(hits, Some(maxOut)) == Limited(hits, Some(LimitOf(maxOut)))
  {
  }

  lemma CutLeaksOrder(buckets: Buckets, entities: seq<Entity>, cellSize: real, e: Entity, radius: Option<real>,
                      maxOut: int, n: nat)
    requires cellSize != 0.0 && Indexes(buckets, entities, cellSize) && NoRepeats(entities)
    requires CutsCell(buckets, CellOf(e, cellSize), e, radius, LimitOf(maxOut), n)
    ensures !OrderProof(buckets, entities, cellSize, e, radius, Some(maxOut))
  {
    var cell, limit := CellOf(e, cellSize), LimitOf(maxOut);
    LimitBelowOne([], maxOut);
    var lost := CutLosesLast(buckets, entities, cellSize, e, radius, limit, n);
    var entities' := MoveToFront(entities, lost);
    var buckets' := HasIndex(entities', cellSize);
    ScansAgree(buckets, entities, buckets', entities', cellSize, e, radius, n);
    ScansAgree(buckets, entities, buckets', entities', cellSize, e, radius, n + 1);
    assert CutsCell(buckets', cell, e, radius, limit, n);
    hide Indexes, Near, CellOf, Scan, Sorted, Limited, NoRepeats, LimitOf, CutsCell;
    var hits, hits' := Scan(buckets, cell, e, radius, 9), Scan(buckets', cell, e, radius, 9);
    LimitBelowOne(hits, maxOut);
    LimitBelowOne(hits', maxOut);
    FirstIsFound(buckets', entities', cellSize, e, radius, limit, n, lost);
    SortedKeepsMembers(Limited(hits', Some(limit)), Limited(hits, Some(limit)), lost);
    assert !SameAnswer(buckets, buckets', cellSize, e, radius, Some(maxOut));
  }

  /** If the limit is met within no whole number of cells, some cell is cut. */
  lemma {:induction false} CutExists(buckets: Buckets, entities: seq<Entity>, cellSize: real, e: Entity,
                                     radius: Option<real>, maxOut: int, m: nat)
    returns (n: nat)
    requires cellSize != 0.0 && Indexes(buckets, entities, cellSize) && m <= 9
    requires |Scan(buckets, CellOf(e, cellSize), e, radius, m)| > LimitOf(maxOut)
    requires forall k :: 0 <= k <= 9 ==> !StopsAfter(entities, cellSize, e, radius, Some(maxOut), k)
    ensures n < 9 && CutsCell(buckets, CellOf(e, cellSize), e, radius, LimitOf(maxOut), n)
  {
    hide Indexes, CellOf, StopsAfter, Found, Filter;
    assert m > 0;
    NotStopped(buckets, entities, cellSize, e, radius, maxOut, m - 1);
    n := m - 1;
    if |Scan(buckets, CellOf(e, cellSize), e, radius, m - 1)| > LimitOf(maxOut) {
      hide Scan;
      n := CutExists(buckets, entities, cellSize, e, radius, maxOut, m - 1);
    }
  }

  lemma NotStopped(buckets: Buckets, entities: seq<Entity>, cellSize: real, e: Entity, radius: Option<real>,
                   maxOut: int, n: nat)
    requires cellSize != 0.0 && Indexes(buckets, entities, cellSize) && n <= 9
    requires !StopsAfter(entities, cellSize, e, radius, Some(maxOut), n)
    ensures |Scan(buckets, CellOf(e, cellSize), e, radius, n)| != LimitOf(maxOut)
    ensures n == 9 ==> |Scan(buckets, CellOf(e, cellSize), e, radius, n)| > LimitOf(maxOut)
  {
    FoundIsScan(buckets, entities, cellSize, e, radius, n);
    hide Indexes, CellOf, Scan, Found;
  }

  /** The hits are those of a whole number of cells, and their keys tell them apart. */
  ghost predicate WholeAndToldApart(entities: seq<Entity>, cellSize: real, e: Entity, radius: Option<real>,
                                    maxOut: Option<int>)
    requires cellSize != 0.0
  {
    exists n :: 0 <= n <= 9 && StopsAfter(entities, cellSize, e, radius, maxOut, n)
             && KeysTell(Found(entities, cellSize, e, radius, n))
  }

  /** A query's answer is the same for every order of insertion exactly when its limit, if it has one,
      cuts no cell in two, and the sort key tells the hits apart: sorting after the cut, and by a key
      that ties, does not help. */
  lemma OrderProofIff(buckets: Buckets, entities: seq<Entity>, cellSize: real, e: Entity, radius: Option<real>,
                      maxOut: Option<int>)
    requires cellSize != 0.0 && Indexes(buckets, entities, cellSize) && (maxOut.None? || NoRepeats(entities))
    ensures OrderProof(buckets, entities, cellSize, e, radius, maxOut)
       <==> WholeAndToldApart(entities, cellSize, e, radius, maxOut)
  {
    if n: nat :| n <= 9 && StopsAfter(entities, cellSize, e, radius, maxOut, n) {
      hide Indexes, CellOf, StopsAfter, Found, NoRepeats, KeysTell, OrderProof;
      if WholeAndToldApart(entities, cellSize, e, radius, maxOut) {
        var k: nat :| k <= 9 && StopsAfter(entities, cellSize, e, radius, maxOut, k)
                   && KeysTell(Found(entities, cellSize, e, radius, k));
        ToldApartIsOrderProof(buckets, entities, cellSize, e, radius, maxOut, k);
      } else {
        TieLeaksOrder(buckets, entities, cellSize, e, radius, maxOut, n);
      }
    } else {
      assert !StopsAfter(entities, cellSize, e, radius, maxOut, 9);
      NotStopped(buckets, entities, cellSize, e, radius, maxOut.value, 9);
      var n := CutExists(buckets, entities, cellSize, e, radius, maxOut.value, 9);
      CutLeaksOrder(buckets, entities, cellSize, e, radius, maxOut.value, n);
    }
  }

  /** Unique ids are enough when there is no limit. */
  lemma UniqueIdsSuffice(buckets: Buckets, entities: seq<Entity>, cellSize: real, e: Entity, radius: Option<real>)
    requires cellSize != 0.0 && Indexes(buckets, entities, cellSize)
    requires forall i, j :: 0 <= i < j < |entities| ==> entities[i].id != entities[j].id
    ensures OrderProof(buckets, entities, cellSize, e, radius, None)
  {
    var found := Found(entities, cellSize, e, radius, 9);
    forall a, b | a in found && b in found && SameKey(a, b) ensures a == b {
      FilterMembers(entities, Picked(cellSize, CellOf(e, cellSize), e, radius, 9), a);
      FilterMembers(entities, Picked(cellSize, CellOf(e, cellSize), e, radius, 9), b);
    }
    ToldApartIsOrderProof(buckets, entities, cellSize, e, radius, None, 9);
  }

  // ---- cuts do happen ---------------------------------------------------------------------------

  /** The cell of the query itself comes fifth. */
  lemma OwnCellIsFifth(cell: Cell)
    ensures forall n: nat :: n <= 9 ==> (Among(cell, cell, n) <==> n > 4)
  {
    assert RingCell(cell, 4) == cell;
    forall k: nat | k < 9 && RingCell(cell, k) == cell ensures k == 4 { RingInjective(cell, 4, k); }
  }

  /** Of several entities at the queried spot, any smaller limit cuts their cell. */
  lemma CrowdIsCut(entities: seq<Entity>, cellSize: real, e: Entity, radius: Option<real>, maxOut: int, n: nat)
    requires cellSize != 0.0 && n <= 9
    requires forall o :: o in entities ==> o.x == e.x && o.z == e.z
    requires LimitOf(maxOut) < |entities|
    ensures !StopsAfter(entities, cellSize, e, radius, Some(maxOut), n)
  {
    var cell := CellOf(e, cellSize);
    OwnCellIsFifth(cell);
    var picked := Picked(cellSize, cell, e, radius, n);
    assert Square(0.0) == 0.0 && (radius.Some? ==> Square(radius.value) >= 0.0);
    assert Among(cell, cell, n) == (n > 4);
    forall o | o in entities ensures CellOf(o, cellSize) == cell && Near(o, e, radius) {
    }
    hide Near, CellOf, Among, RingCell, Square;
    if n > 4 { FilterAll(entities, picked); } else { FilterNone(entities, picked); }
  }

  lemma {:induction false} FilterAll(s: seq<Entity>, p: Entity -> bool)
    requires forall e :: e in s ==> p(e)
    ensures Filter(s, p) == s
  {
    if s != [] {
      FilterAll(s[..|s| - 1], p);
      assert s == s[..|s| - 1] + [s[|s| - 1]];
    }
  }

  /** Two entities on one spot and a limit of one, or less: inserted the other way round, the other is
      found. Without ids and without a limit, the other is named first. */
  lemma OrderLeaks(maxOut: Option<int>)
    requires maxOut.Some? ==> maxOut.value <= 1
    ensures var a, b := Entity(if maxOut.Some? then "a" else "", 0.0, 0.0, 0), Entity("", 0.0, 0.0, 1);
      forall buckets: Buckets | Indexes(buckets, [a, b], 1.0) :: !OrderProof(buckets, [a, b], 1.0, a, None, maxOut)
  {
    var a, b := Entity(if maxOut.Some? then "a" else "", 0.0, 0.0, 0), Entity("", 0.0, 0.0, 1);
    assert NoRepeats([a, b]);
    if maxOut.Some? {
      forall n: nat | n <= 9 ensures !StopsAfter([a, b], 1.0, a, None, maxOut, n) {
        CrowdIsCut([a, b], 1.0, a, None, maxOut.value, n);
      }
    } else {
      BothFound(a, b);
      assert SameKey(a, b) && !KeysTell(Found([a, b], 1.0, a, None, 9));
    }
    hide Indexes, StopsAfter, OrderProof, NoRepeats, CellOf, KeysTell, Found;
    forall buckets: Buckets | Indexes(buckets, [a, b], 1.0) ensures !OrderProof(buckets, [a, b], 1.0, a, None, maxOut) {
      OrderProofIff(buckets, [a, b], 1.0, a, None, maxOut);
    }
  }

  lemma BothFound(a: Entity, b: Entity)
    requires a.x == b.x && a.z == b.z
    ensures Found([a, b], 1.0, a, None, 9) == [a, b]
  {
    RingHas(CellOf(a, 1.0), CellOf(a, 1.0));
    assert CellOf(b, 1.0) == CellOf(a, 1.0);
    hide CellOf, Among;
    FilterAll([a, b], Picked(1.0, CellOf(a, 1.0), a, None, 9));
  }
}
