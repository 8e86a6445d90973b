/** The road graph of a map: carrier tiles joined by 4-adjacency, and what it means for a
    partition of the cells to describe its connected components. */
module RoadGraph {
  import opened Tiles
  import opened Routes
  import opened UnionFind
  import opened Wrappers

  predicate CarrierTile(t: int) {
    t == ROAD || t == BRIDGE || t == WAREHOUSE
  }

  predicate IsCarrier(m: Terrain, k: int) {
    0 <= k < |m.tiles| && CarrierTile(m.tiles[k])
  }

  function CarriersBelow(m: Terrain, n: nat): (s: set<nat>)
    ensures forall k :: k in s <==> k < n && IsCarrier(m, k)
  {
    set k: nat | k < n && IsCarrier(m, k)
  }

  function Carriers(m: Terrain): set<nat> {
    CarriersBelow(m, |m.tiles|)
  }

  function PointOf(m: Terrain, k: nat): Point
    requires m.width > 0
  {
    OfIndex(k, m.width)
  }

  predicate Beside(m: Terrain, a: nat, b: nat)
    requires m.width > 0
  {
    Adjacent(PointOf(m, a), PointOf(m, b))
  }

  /** A chain of carriers, each beside the next, leads from a to b. */
  predicate IsChain(m: Terrain, a: nat, b: nat, chain: seq<nat>)
    requires m.width > 0
  {
    && |chain| > 0 && chain[0] == a && chain[|chain| - 1] == b
    && (forall i :: 0 <= i < |chain| ==> IsCarrier(m, chain[i]))
    && (forall i :: 1 <= i < |chain| ==> Beside(m, chain[i - 1], chain[i]))
  }

  ghost predicate Joined(m: Terrain, a: nat, b: nat)
    requires m.width > 0
  {
    exists chain :: IsChain(m, a, b, chain)
  }

  lemma JoinedToItself(m: Terrain, a: nat)
    requires m.width > 0 && IsCarrier(m, a)
    ensures Joined(m, a, a)
  {
    assert IsChain(m, a, a, [a]);
  }

  lemma NeighboursAreJoined(m: Terrain, a: nat, b: nat)
    requires m.width > 0 && IsCarrier(m, a) && IsCarrier(m, b) && Beside(m, a, b)
    ensures Joined(m, a, b)
  {
    assert IsChain(m, a, b, [a, b]);
  }

  lemma {:induction false} ReversedChain(m: Terrain, a: nat, b: nat, chain: seq<nat>) returns (back: seq<nat>)
    requires m.width > 0 && IsChain(m, a, b, chain)
    ensures IsChain(m, b, a, back)
    decreases |chain|
  {
    if |chain| == 1 {
      back := chain;
    } else {
      var n := |chain| - 1;
      var rest := ReversedChain(m, a, chain[n - 1], chain[..n]);
      assert Beside(m, chain[n - 1], chain[n]);
      back := [b] + rest;
    }
  }

  lemma JoinedIsSymmetric(m: Terrain, a: nat, b: nat)
    requires m.width > 0 && Joined(m, a, b)
    ensures Joined(m, b, a)
  {
    var chain :| IsChain(m, a, b, chain);
    var back := ReversedChain(m, a, b, chain);
  }

  lemma JoinedIsTransitive(m: Terrain, a: nat, b: nat, c: nat)
    requires m.width > 0 && Joined(m, a, b) && Joined(m, b, c)
    ensures Joined(m, a, c)
  {
    var first :| IsChain(m, a, b, first);
    var second :| IsChain(m, b, c, second);
    assert IsChain(m, a, c, first + second[1..]);
  }

  /** The cells that carry traffic, as coordinates. */
  function CarrierPoints(m: Terrain): (cells: set<Point>)
    requires WellFormed(m)
    ensures forall p :: p in cells <==> InBounds(p, m) && CarrierTile(TileAt(m, p))
  {
    set p | p in Cells(m) && CarrierTile(TileAt(m, p))
  }

  /** Road, warehouse and bridge carry traffic, by tile id. */
  lemma CarrierPointsAre(m: Terrain, p: Point)
    requires WellFormed(m)
    ensures p in CarrierPoints(m) <==> InBounds(p, m) && TileAt(m, p) in {1, 4, 9}
  {
  }

  lemma CarrierAt(m: Terrain, p: Point)
    requires WellFormed(m) && InBounds(p, m)
    ensures p in CarrierPoints(m) <==> IsCarrier(m, ToIndex(p, m.width))
    ensures m.width > 0 && 0 <= ToIndex(p, m.width) && PointOf(m, ToIndex(p, m.width)) == p
  {
    PointOfIndexOfPoint(p, m);
  }

  /** On coordinates, a chain is a walkable route over carrier tiles. */
  lemma ChainIsRouteOfPoints(m: Terrain, a: nat, b: nat, chain: seq<nat>)
    requires WellFormed(m) && m.width > 0 && IsChain(m, a, b, chain)
    ensures IsRoute(CarrierPoints(m), PointOf(m, a), PointOf(m, b),
                    seq(|chain|, i requires 0 <= i < |chain| => PointOf(m, chain[i])))
  {
    forall i | 0 <= i < |chain| ensures PointOf(m, chain[i]) in CarrierPoints(m) {
      IndexOfPointOfIndex(chain[i], m);
    }
    assert forall i :: 1 <= i < |chain| ==> Beside(m, chain[i - 1], chain[i]);
  }

  /** And back: a route over carrier tiles is a chain. */
  lemma RouteIsChain(m: Terrain, a: Point, b: Point, path: seq<Point>) returns (chain: seq<nat>)
    requires WellFormed(m) && m.width > 0 && a in CarrierPoints(m) && IsRoute(CarrierPoints(m), a, b, path)
    ensures ToIndex(a, m.width) >= 0 && ToIndex(b, m.width) >= 0
    ensures IsChain(m, ToIndex(a, m.width), ToIndex(b, m.width), chain)
  {
    forall i | 0 <= i < |path|
      ensures IsCarrier(m, ToIndex(path[i], m.width)) && PointOf(m, ToIndex(path[i], m.width)) == path[i]
    {
      CarrierAt(m, path[i]);
    }
    chain := seq(|path|, i requires 0 <= i < |path| => ToIndex(path[i], m.width));
    hide ToIndex, PointOf;
    forall i | 1 <= i < |chain| ensures Beside(m, chain[i - 1], chain[i]) {
      assert Adjacent(path[i - 1], path[i]);
    }
  }

  /** Two cells of the network on the map: what a query about them should say. */
  ghost predicate ConnectedCells(m: Terrain, a: Point, b: Point)
    requires m.width > 0
  {
    var i, j := ToIndex(a, m.width), ToIndex(b, m.width);
    IsCarrier(m, i) && IsCarrier(m, j) && Joined(m, i, j)
  }

  /** On the map, cells are connected exactly when a route over carrier tiles leads from one to the other. */
  lemma ConnectedIffRoute(m: Terrain, a: Point, b: Point)
    requires WellFormed(m) && InBounds(a, m) && InBounds(b, m)
    ensures ConnectedCells(m, a, b) <==> a in CarrierPoints(m) && Reachable(CarrierPoints(m), a, b)
  {
    CarrierAt(m, a);
    CarrierAt(m, b);
    if ConnectedCells(m, a, b) {
      var chain :| IsChain(m, ToIndex(a, m.width), ToIndex(b, m.width), chain);
      ChainIsRouteOfPoints(m, ToIndex(a, m.width), ToIndex(b, m.width), chain);
    }
    if a in CarrierPoints(m) && Reachable(CarrierPoints(m), a, b) {
      var path :| IsRoute(CarrierPoints(m), a, b, path);
      var chain := RouteIsChain(m, a, b, path);
      assert IsChain(m, ToIndex(a, m.width), ToIndex(b, m.width), chain);
      assert IsCarrier(m, chain[|chain| - 1]);
    }
  }

  /** The cell on the map whose flat index the point has, if there is one. */
  function Alias(m: Terrain, p: Point): (r: Option<Point>)
    requires WellFormed(m)
    ensures InBounds(p, m) ==> r == Some(p)
    ensures r.Some? ==> InBounds(r.value, m) && ToIndex(r.value, m.width) == ToIndex(p, m.width)
  {
    if InBounds(p, m) then PointOfIndexOfPoint(p, m); Some(p)
    else if m.width > 0 && 0 <= ToIndex(p, m.width) < |m.tiles| then
      IndexOfPointOfIndex(ToIndex(p, m.width), m);
      Some(OfIndex(ToIndex(p, m.width), m.width))
    else None
  }

  /** On the map or off it: cells are connected exactly when their aliases are. */
  lemma ConnectedIffAliasesAre(m: Terrain, a: Point, b: Point)
    requires WellFormed(m) && m.width > 0
    ensures ConnectedCells(m, a, b) <==>
      && Alias(m, a).Some? && Alias(m, b).Some? && Alias(m, a).value in CarrierPoints(m)
      && Reachable(CarrierPoints(m), Alias(m, a).value, Alias(m, b).value)
  {
    if Alias(m, a).Some? && Alias(m, b).Some? {
      ConnectedIffRoute(m, Alias(m, a).value, Alias(m, b).value);
    }
  }

  /** So a query off the map can say yes: left of the second row lies the end of the first. */
  lemma OffMapConnects() returns (m: Terrain, p: Point)
    ensures WellFormed(m) && m.width > 0 && !InBounds(p, m) && ConnectedCells(m, p, Point(1, 0))
  {
    m, p := Terrain(2, 1, [GRASS, ROAD]), Point(-1, 1);
    JoinedToItself(m, 1);
  }

  // ---- partitions -----------------------------------------------------------------

  /** Elements share a root only if they are joined. */
  ghost predicate Sound(m: Terrain, root: seq<nat>)
    requires m.width > 0
  {
    forall i :: 0 <= i < |root| ==> root[i] == i || Joined(m, i, root[i])
  }

  /** Carriers beside each other share a root, among the cells before n. */
  ghost predicate CompleteBelow(m: Terrain, root: seq<nat>, n: nat)
    requires m.width > 0 && |root| == |m.tiles|
  {
    forall a, b :: 0 <= a < b < n && IsCarrier(m, a) && IsCarrier(m, b) && Beside(m, b, a) ==> root[a] == root[b]
  }

  lemma MergingKeepsSound(m: Terrain, root: seq<nat>, a: nat, b: nat, loser: nat, winner: nat)
    requires m.width > 0 && Sound(m, root)
    requires a < |root| && b < |root| && Joined(m, a, b) && Joined(m, b, a)
    requires (loser == root[a] && winner == root[b]) || (loser == root[b] && winner == root[a])
    ensures Sound(m, Merged(root, loser, winner))
  {
    var x, y := if loser == root[a] then a else b, if loser == root[a] then b else a;
    assert loser == winner || Joined(m, loser, winner) by {
      if root[x] != x { JoinedIsSymmetric(m, x, loser); JoinedIsTransitive(m, loser, x, y); }
      if root[y] != y { JoinedIsTransitive(m, loser, y, winner); }
    }
    forall i | 0 <= i < |root|
      ensures Merged(root, loser, winner)[i] == i || Joined(m, i, Merged(root, loser, winner)[i])
    {
      if root[i] == loser && root[i] != i && loser != winner {
        JoinedIsTransitive(m, i, loser, winner);
      }
    }
  }

  lemma {:induction false} ChainSharesRoot(m: Terrain, root: seq<nat>, a: nat, b: nat, chain: seq<nat>)
    requires m.width > 0 && |root| == |m.tiles| && CompleteBelow(m, root, |m.tiles|)
    requires IsChain(m, a, b, chain)
    ensures root[a] == root[b]
    decreases |chain|
  {
    if |chain| > 1 {
      var n := |chain| - 1;
      ChainSharesRoot(m, root, a, chain[n - 1], chain[..n]);
      assert Beside(m, chain[n - 1], chain[n]) && Beside(m, chain[n], chain[n - 1]);
      assert chain[n - 1] != chain[n];
    }
  }

  /** A sound and complete partition puts two carriers in one class exactly when a chain of
      carriers joins them. */
  lemma SameRootIffJoined(m: Terrain, root: seq<nat>, a: nat, b: nat)
    requires m.width > 0 && |root| == |m.tiles| && Sound(m, root) && CompleteBelow(m, root, |m.tiles|)
    requires IsCarrier(m, a) && IsCarrier(m, b)
    ensures root[a] == root[b] <==> Joined(m, a, b)
  {
    if root[a] == root[b] {
      JoinedToItself(m, a);
      if root[a] != a && root[b] != b {
        JoinedIsSymmetric(m, b, root[b]);
        JoinedIsTransitive(m, a, root[a], b);
      } else if root[a] == a && root[b] != b {
        JoinedIsSymmetric(m, b, a);
      }
    }
    if Joined(m, a, b) {
      var chain :| IsChain(m, a, b, chain);
      ChainSharesRoot(m, root, a, b, chain);
    }
  }

  // ---- components -------------------------------------------------------------------

  ghost function Component(m: Terrain, k: nat): (c: set<nat>)
    requires m.width > 0
  {
    set j | j in Carriers(m) && Joined(m, k, j)
  }

  ghost function Components(m: Terrain): set<set<nat>>
    requires m.width > 0
  {
    set k | k in Carriers(m) :: Component(m, k)
  }

  lemma ClassIsComponent(m: Terrain, root: seq<nat>, k: nat)
    requires m.width > 0 && |root| == |m.tiles| && Sound(m, root) && CompleteBelow(m, root, |m.tiles|)
    requires IsCarrier(m, k)
    ensures Class(root, root[k]) == Component(m, k)
  {
    forall j | j in Class(root, root[k]) ensures j in Component(m, k) {
      CarrierBesideRoot(m, root, k, j);
      SameRootIffJoined(m, root, k, j);
    }
    forall j | j in Component(m, k) ensures j in Class(root, root[k]) {
      SameRootIffJoined(m, root, k, j);
    }
  }

  /** Whatever shares a carrier's root is a carrier. */
  lemma CarrierBesideRoot(m: Terrain, root: seq<nat>, k: nat, j: nat)
    requires m.width > 0 && |root| == |m.tiles| && Sound(m, root)
    requires IsCarrier(m, k) && j < |root| && root[j] == root[k]
    ensures IsCarrier(m, j)
  {
    if root[j] != j {
      var chain :| IsChain(m, j, root[j], chain);
    } else if root[k] != k {
      var chain :| IsChain(m, k, root[k], chain);
    }
  }

  lemma {:induction false} InjectiveImageSize(keys: set<nat>, f: map<nat, set<nat>>, image: set<set<nat>>)
    requires keys <= f.Keys && image == set k | k in keys :: f[k]
    requires forall a, b :: a in keys && b in keys && f[a] == f[b] ==> a == b
    ensures |image| == |keys|
  {
    if keys == {} {
      assert image == {};
    } else {
      var k :| k in keys;
      var rest := set j | j in keys - {k} :: f[j];
      assert image == rest + {f[k]};
      InjectiveImageSize(keys - {k}, f, rest);
    }
  }

  /** The distinct roots of the carriers are as many as the connected components. */
  lemma RootsCountComponents(m: Terrain, root: seq<nat>, roots: set<nat>)
    requires m.width > 0 && |root| == |m.tiles| && Sound(m, root) && CompleteBelow(m, root, |m.tiles|)
    requires roots == set k | k in Carriers(m) :: root[k]
    ensures |roots| == |Components(m)|
  {
    var f := map r | r in roots :: Class(root, r);
    forall r | r in roots ensures f[r] in Components(m) && f[r] != {} {
      var k :| k in Carriers(m) && root[k] == r;
      ClassIsComponent(m, root, k);
      assert k in f[r];
    }
    forall c | c in Components(m) ensures exists r :: r in roots && f[r] == c {
      var k :| k in Carriers(m) && c == Component(m, k);
      ClassIsComponent(m, root, k);
      assert root[k] in roots && f[root[k]] == c;
    }
    assert Components(m) == set r | r in roots :: f[r];
    forall a, b | a in roots && b in roots && f[a] == f[b] ensures a == b {
      var x :| x in f[a];
      assert root[x] == a && root[x] == b;
    }
    InjectiveImageSize(roots, f, Components(m));
  }
}
