/** RoadNetwork of road_network.py: the union-find over carrier tiles, rebuilt when the grid's
    version has moved. */
module RoadNetwork {
  import opened Tiles
  import opened Routes
  import opened Grids
  import opened UnionFind
  import opened RoadGraph

  function WarehousesBelow(m: Terrain, n: nat): (s: seq<nat>)
    requires n <= |m.tiles|
    ensures forall i :: 0 <= i < |s| ==> s[i] < n && m.tiles[s[i]] == WAREHOUSE
    ensures forall i, j :: 0 <= i < j < |s| ==> s[i] < s[j]
    ensures forall k :: 0 <= k < n && m.tiles[k] == WAREHOUSE ==> k in s
  {
    if n == 0 then []
    else if m.tiles[n - 1] == WAREHOUSE then WarehousesBelow(m, n - 1) + [n - 1]
    else WarehousesBelow(m, n - 1)
  }

  /** What a rebuild computes for a map. */
  ghost predicate Reflects(m: Terrain, root: seq<nat>, roads: set<nat>, warehouses: seq<nat>, components: nat,
                           total: nat) {
    && WellFormed(m) && m.width > 0 && |root| == |m.tiles|
    && Sound(m, root) && CompleteBelow(m, root, |m.tiles|)
    && roads == Carriers(m) && warehouses == WarehousesBelow(m, |m.tiles|)
    && components == |Components(m)| && total == |Carriers(m)|
  }

  /** What the fields say about a pair of cells is whether they are connected. */
  lemma ReflectedAnswer(m: Terrain, root: seq<nat>, roads: set<nat>, warehouses: seq<nat>, components: nat, total: nat,
                        a: Point, b: Point)
    requires Reflects(m, root, roads, warehouses, components, total)
    ensures WellFormed(m) && m.width > 0 && forall k :: k in roads ==> k < |root|
    ensures var i, j := ToIndex(a, m.width), ToIndex(b, m.width);
      ConnectedCells(m, a, b) <==> i in roads && j in roads && root[i] == root[j]
  {
    var i, j := ToIndex(a, m.width), ToIndex(b, m.width);
    if IsCarrier(m, i) && IsCarrier(m, j) {
      SameRootIffJoined(m, root, i, j);
    }
  }

  /** Cell n shares a root with the carriers before it in its first d directions. */
  ghost predicate JoinedTowards(m: Terrain, root: seq<nat>, n: nat, d: nat)
    requires m.width > 0 && |root| == |m.tiles| && n < |root| && d <= 4
  {
    forall e :: 0 <= e < d ==> SharesRoot(m, root, n, e)
  }

  ghost predicate SharesRoot(m: Terrain, root: seq<nat>, n: nat, e: nat)
    requires m.width > 0 && |root| == |m.tiles| && n < |root| && e < 4
  {
    forall b :: 0 <= b < n && IsCarrier(m, b) && PointOf(m, b) == Neighbour(PointOf(m, n), e) ==> root[b] == root[n]
  }

  /** The partition joins carriers that are beside each other among the cells before n. */
  ghost predicate Built(m: Terrain, root: seq<nat>, n: nat) {
    m.width > 0 && |root| == |m.tiles| && Sound(m, root) && CompleteBelow(m, root, n)
  }

  lemma BuiltFits(m: Terrain, root: seq<nat>)
    requires Built(m, root, |m.tiles|)
    ensures |root| == |m.tiles| && forall k :: k in Carriers(m) ==> k < |root|
  {
  }

  lemma BuiltReflects(m: Terrain, root: seq<nat>, roots: set<nat>)
    requires WellFormed(m) && Built(m, root, |m.tiles|) && |root| == |m.tiles|
    requires (forall k :: k in Carriers(m) ==> k < |root|) && roots == set k | k in Carriers(m) :: root[k]
    ensures Reflects(m, root, Carriers(m), WarehousesBelow(m, |m.tiles|), |roots|, |Carriers(m)|)
  {
    RootsCountComponents(m, root, roots);
  }

  lemma UnionKeepsBuilt(m: Terrain, root: seq<nat>, root': seq<nat>, n: nat, b: nat, d: nat)
    requires Built(m, root, n) && n < |root| && b < |root| && d < 4
    requires WellFormed(m) && IsCarrier(m, n) && IsCarrier(m, b) && PointOf(m, b) == Neighbour(PointOf(m, n), d)
    requires JoinedTowards(m, root, n, d)
    requires (root' == root && root[n] == root[b])
          || (root' == Merged(root, root[n], root[b])) || (root' == Merged(root, root[b], root[n]))
    ensures Built(m, root', n) && JoinedTowards(m, root', n, d + 1)
  {
    assert Beside(m, n, b) && Beside(m, b, n);
    NeighboursAreJoined(m, n, b);
    NeighboursAreJoined(m, b, n);
    if root' == Merged(root, root[n], root[b]) {
      MergingKeepsSound(m, root, n, b, root[n], root[b]);
    } else if root' == Merged(root, root[b], root[n]) {
      MergingKeepsSound(m, root, n, b, root[b], root[n]);
    }
    assert forall x, y :: 0 <= x < |root| && 0 <= y < |root| && root[x] == root[y] ==> root'[x] == root'[y];
    forall e | 0 <= e < d + 1 ensures SharesRoot(m, root', n, e) {
      if e < d { assert SharesRoot(m, root, n, e); }
      forall c | 0 <= c < n && IsCarrier(m, c) && PointOf(m, c) == Neighbour(PointOf(m, n), e)
        ensures root'[c] == root'[n]
      {
        if e == d {
          IndexOfPointOfIndex(c, m);
          IndexOfPointOfIndex(b, m);
        }
      }
    }
  }

  /** Skipping a direction is right when no earlier carrier lies there. */
  lemma SkippedDirection(m: Terrain, root: seq<nat>, n: nat, d: nat)
    requires Built(m, root, n) && n < |root| && d < 4 && WellFormed(m)
    requires JoinedTowards(m, root, n, d)
    requires var p := Neighbour(PointOf(m, n), d);
      !InBounds(p, m) || !(0 <= ToIndex(p, m.width) < n + 1 && IsCarrier(m, ToIndex(p, m.width)))
    ensures JoinedTowards(m, root, n, d + 1)
  {
    forall e | 0 <= e < d + 1 ensures SharesRoot(m, root, n, e) {
      if e < d {
        assert SharesRoot(m, root, n, e);
      } else {
        forall b | 0 <= b < n && IsCarrier(m, b) ensures PointOf(m, b) != Neighbour(PointOf(m, n), d) {
          IndexOfPointOfIndex(b, m);
        }
      }
    }
  }

  lemma CellDone(m: Terrain, root: seq<nat>, n: nat)
    requires Built(m, root, n) && n < |root|
    requires IsCarrier(m, n) ==> JoinedTowards(m, root, n, 4)
    ensures Built(m, root, n + 1)
  {
    forall a, b | 0 <= a < b < n + 1 && IsCarrier(m, a) && IsCarrier(m, b) && Beside(m, b, a)
      ensures root[a] == root[b]
    {
      if b == n {
        var d := DirectionTo(PointOf(m, n), PointOf(m, a));
        assert SharesRoot(m, root, n, d);
      }
    }
  }

  lemma SingletonsAreBuilt(m: Terrain, root: seq<nat>)
    requires m.width > 0 && |root| == |m.tiles| && forall i :: 0 <= i < |root| ==> root[i] == i
    ensures Built(m, root, 0)
  {
  }

  lemma PlainCell(m: Terrain, root: seq<nat>, n: nat)
    requires Built(m, root, n) && n < |m.tiles| && !IsCarrier(m, n)
    ensures Built(m, root, n + 1)
  {
    CellDone(m, root, n);
  }

  /** The flat index of the first cell of row z. */
  function RowStart(m: Terrain, z: nat): nat {
    if z == 0 then 0 else RowStart(m, z - 1) + m.width
  }

  lemma {:induction false} RowStartIsProduct(m: Terrain, z: nat)
    ensures RowStart(m, z) == z * m.width
  {
    if z > 0 { RowStartIsProduct(m, z - 1); }
  }

  lemma RowFits(m: Terrain, z: nat)
    requires WellFormed(m) && z <= m.height
    ensures z < m.height ==> RowStart(m, z) + m.width <= |m.tiles|
    ensures z == m.height ==> RowStart(m, z) == |m.tiles|
  {
    RowStartIsProduct(m, z);
    RowStartIsProduct(m, m.height);
    if z < m.height {
      RowStartIsProduct(m, z + 1);
      assert (z + 1) * m.width <= m.height * m.width;
    }
  }

  class RoadNetwork {
    var uf: UnionFind?
    var gridVersion: int
    var roadSet: set<nat>
    var warehouses: seq<nat>
    var componentCount: nat
    var totalRoadTiles: nat
    ghost var seen: Terrain

    /** Either nothing has been built yet, or the fields reflect the map that was seen, which is the
        one the remembered version stands for if that is clean. */
    ghost predicate Valid(grid: Grid)
      reads this, grid, uf, if uf == null then {} else {uf.parent, uf.rank, uf.size}
    {
      if uf == null then gridVersion == -1
      else
        && uf.Valid() && this !in uf.Repr && grid !in uf.Repr && grid.tiles !in uf.Repr && gridVersion in grid.history
        && (gridVersion !in grid.dirty ==> seen == grid.history[gridVersion])
        && seen.width == grid.width && seen.height == grid.height
        && Reflects(seen, uf.root, roadSet, warehouses, componentCount, totalRoadTiles)
    }

    /** What the queries below find and what they may touch. */
    ghost predicate Current(grid: Grid)
      reads this, grid, grid.tiles, uf, if uf == null then {} else {uf.parent, uf.rank, uf.size}
    {
      && grid.Valid() && Valid(grid) && uf != null && gridVersion == grid.version
      && (grid.Clean() ==> seen == grid.Map())
    }

    constructor ()
      ensures uf == null && gridVersion == -1
    {
      uf := null;
      gridVersion := -1;
      roadSet, warehouses, componentCount, totalRoadTiles := {}, [], 0, 0;
      seen := Terrain(0, 0, []);
    }

    /** The inner loop of the scan: unites a carrier with the neighbours already seen. */
    method UniteCell(u: UnionFind, m: Terrain, n: nat, seen: set<nat>)
      requires WellFormed(m) && u.Valid() && Built(m, u.root, n) && IsCarrier(m, n)
      requires seen == CarriersBelow(m, n + 1)
      modifies u, u.parent, u.rank, u.size
      ensures u.Valid() && Built(m, u.root, n + 1)
    {
      IndexOfPointOfIndex(n, m);
      for d := 0 to 4
        invariant u.Valid() && Built(m, u.root, n) && JoinedTowards(m, u.root, n, d)
      {
        var p := Neighbour(OfIndex(n, m.width), d);
        if !InBounds(p, m) {
          SkippedDirection(m, u.root, n, d);
          continue;
        }
        PointOfIndexOfPoint(p, m);
        var b := ToIndex(p, m.width);
        if b in seen {
          ghost var before := u.root;
          var _ := u.Union(n, b);
          UnionKeepsBuilt(m, before, u.root, n, b, d);
        } else {
          SkippedDirection(m, u.root, n, d);
        }
      }
      CellDone(m, u.root, n);
    }

    /** Recomputes the network if the version has moved since the last rebuild. */
    method Rebuild(grid: Grid)
      requires grid.Valid() && Valid(grid)
      modifies this
      ensures Current(grid)
      ensures old(gridVersion) == grid.version ==> uf == old(uf)
      ensures old(gridVersion) != grid.version ==> fresh(uf.Repr)
    {
      if gridVersion == grid.version {
        return;
      }
      var m := grid.Map();
      hide Reflects, Represents, WellFormed;
      var u, roads, stores, components := Survey(m);
      assert grid.Clean() ==> m == grid.history[grid.version];
      gridVersion := grid.version;
      uf, roadSet, warehouses := u, roads, stores;
      componentCount, totalRoadTiles := components, |roads|;
      seen := m;
      assert uf.Valid() && grid.Valid();
    }

    /** Scans the map and counts the distinct roots. */
    method Survey(m: Terrain) returns (u: UnionFind, roads: set<nat>, stores: seq<nat>, components: nat)
      requires WellFormed(m) && m.width > 0
      ensures fresh(u) && fresh(u.Repr) && u.Valid()
      ensures Reflects(m, u.root, roads, stores, components, |roads|)
    {
      hide Built, Reflects, WellFormed, Represents;
      u, roads, stores := Scan(m);
      BuiltFits(m, u.root);
      var roots := RootsOf(u, roads);
      BuiltReflects(m, u.root, roots);
      components := |roots|;
    }

    /** The row-major scan: every carrier is united with its already seen neighbours only. */
    method Scan(m: Terrain) returns (u: UnionFind, roads: set<nat>, stores: seq<nat>)
      requires WellFormed(m) && m.width > 0
      ensures fresh(u) && fresh(u.Repr) && u.Valid() && Built(m, u.root, |m.tiles|)
      ensures roads == Carriers(m) && stores == WarehousesBelow(m, |m.tiles|)
    {
      var cells := m.width * m.height;
      u := new UnionFind(cells);
      roads, stores := {}, [];
      ghost var first: nat := 0;
      SingletonsAreBuilt(m, u.root);
      assert roads == CarriersBelow(m, 0) && stores == WarehousesBelow(m, 0) && |m.tiles| == cells;
      hide Built, WarehousesBelow, CarriersBelow, WellFormed;
      var z := 0;
      while z < m.height
        invariant 0 <= z <= m.height && first == RowStart(m, z)
        invariant fresh(u) && fresh(u.Repr) && u.Valid() && Built(m, u.root, first)
        invariant first <= |m.tiles| && roads == CarriersBelow(m, first) && stores == WarehousesBelow(m, first)
      {
        RowFits(m, z);
        roads, stores := ScanRow(u, m, z, first, roads, stores);
        z, first := z + 1, first + m.width;
      }
      RowFits(m, z);
    }

    method ScanRow(u: UnionFind, m: Terrain, z: nat, ghost first: nat, roads0: set<nat>, stores0: seq<nat>)
      returns (roads: set<nat>, stores: seq<nat>)
      requires WellFormed(m) && first == RowStart(m, z) && first + m.width <= |m.tiles|
      requires u.Valid() && Built(m, u.root, first)
      requires roads0 == CarriersBelow(m, first) && stores0 == WarehousesBelow(m, first)
      modifies u, u.parent, u.rank, u.size
      ensures u.Valid() && Built(m, u.root, first + m.width)
      ensures roads == CarriersBelow(m, first + m.width) && stores == WarehousesBelow(m, first + m.width)
    {
      RowStartIsProduct(m, z);
      hide Built;
      roads, stores := roads0, stores0;
      var x := 0;
      while x < m.width
        invariant 0 <= x <= m.width
        invariant u.Valid() && Built(m, u.root, first + x)
        invariant roads == CarriersBelow(m, first + x) && stores == WarehousesBelow(m, first + x)
      {
        var n := ToIndex(Point(x, z), m.width);
        if CarrierTile(m.tiles[n]) {
          roads := roads + {n};
          if m.tiles[n] == WAREHOUSE {
            stores := stores + [n];
          }
          UniteCell(u, m, n, roads);
        } else {
          PlainCell(m, u.root, n);
        }
        x := x + 1;
      }
    }

    method RootsOf(u: UnionFind, roads: set<nat>) returns (roots: set<nat>)
      requires u.Valid() && forall k :: k in roads ==> k < |u.root|
      modifies u.parent
      ensures u.Valid() && u.root == old(u.root)
      ensures roots == set k | k in roads :: u.root[k]
    {
      var todo := roads;
      roots := {};
      while todo != {}
        invariant u.Valid() && u.root == old(u.root) && todo <= roads
        invariant roots == set k | k in roads - todo :: u.root[k]
      {
        var k :| k in todo;
        var r, _ := u.Find(k);
        todo := todo - {k};
        roots := roots + {r};
        assert roads - todo == (roads - todo - {k}) + {k};
      }
      assert roads - todo == roads;
    }

    /** Two cells are connected exactly when a chain of carriers leads from one to the other. */
    method AreConnected(a: Point, b: Point, grid: Grid) returns (yes: bool)
      requires grid.Valid() && Valid(grid)
      modifies this, if uf == null then {} else uf.Repr
      ensures Current(grid) && (uf == old(uf) || fresh(uf.Repr))
      ensures WellFormed(seen) && seen.width > 0 && (yes <==> ConnectedCells(seen, a, b))
      ensures InBounds(a, seen) && InBounds(b, seen) ==>
        (yes <==> a in CarrierPoints(seen) && Reachable(CarrierPoints(seen), a, b))
    {
      hide Reachable, CarrierPoints, ConnectedCells, Reflects, ToIndex;
      Rebuild(grid);
      ghost var m := seen;
      var i, j := ToIndex(a, grid.width), ToIndex(b, grid.width);
      ReflectedAnswer(m, uf.root, roadSet, warehouses, componentCount, totalRoadTiles, a, b);
      if InBounds(a, m) && InBounds(b, m) { ConnectedIffRoute(m, a, b); }
      if i !in roadSet || j !in roadSet {
        return false;
      }
      yes := uf.Connected(i, j);
    }

    /** The least warehouse joined to the cell, or -1 when there is none. */
    method ConnectedWarehouse(p: Point, grid: Grid) returns (r: int)
      requires grid.Valid() && Valid(grid)
      modifies this, if uf == null then {} else uf.Repr
      ensures Current(grid) && (uf == old(uf) || fresh(uf.Repr))
      ensures r == -1 || IsJoinedWarehouse(seen, ToIndex(p, grid.width), r)
      ensures forall w :: IsJoinedWarehouse(seen, ToIndex(p, grid.width), w) ==> 0 <= r <= w
    {
      Rebuild(grid);
      ghost var m := seen;
      var i := ToIndex(p, grid.width);
      if i !in roadSet {
        return -1;
      }
      r := FirstConnected(uf, i, warehouses);
      FirstConnectedIsLeast(m, uf.root, i, r);
    }

    /** The first of the listed cells in the class of i. */
    method FirstConnected(u: UnionFind, i: nat, stores: seq<nat>) returns (r: int)
      requires u.Valid() && i < |u.root| && forall k :: 0 <= k < |stores| ==> stores[k] < |u.root|
      modifies u.parent
      ensures u.Valid() && u.root == old(u.root)
      ensures IsFirstConnected(u.root, i, stores, r)
    {
      for j := 0 to |stores|
        invariant u.Valid() && u.root == old(u.root)
        invariant forall k :: 0 <= k < j ==> u.root[stores[k]] != u.root[i]
      {
        var found := u.Connected(i, stores[j]);
        if found {
          return stores[j];
        }
      }
      return -1;
    }

    /** The number of carriers joined to the cell, 0 off the network. */
    method ComponentSize(p: Point, grid: Grid) returns (n: nat)
      requires grid.Valid() && Valid(grid)
      modifies this, if uf == null then {} else uf.Repr
      ensures Current(grid) && (uf == old(uf) || fresh(uf.Repr))
      ensures var i := ToIndex(p, grid.width);
        seen.width > 0 && n == if IsCarrier(seen, i) then |Component(seen, i)| else 0
    {
      Rebuild(grid);
      var i := ToIndex(p, grid.width);
      if i !in roadSet {
        return 0;
      }
      ClassIsComponent(seen, uf.root, i);
      n := uf.ComponentSize(i);
    }
  }

  ghost predicate IsFirstConnected(root: seq<nat>, i: nat, stores: seq<nat>, r: int)
    requires i < |root| && forall k :: 0 <= k < |stores| ==> stores[k] < |root|
  {
    if r == -1 then forall k :: 0 <= k < |stores| ==> root[stores[k]] != root[i]
    else exists k :: 0 <= k < |stores| && r == stores[k] && root[r] == root[i]
                  && forall j :: 0 <= j < k ==> root[stores[j]] != root[i]
  }

  lemma FirstConnectedIsLeast(m: Terrain, root: seq<nat>, i: nat, r: int)
    requires Built(m, root, |m.tiles|) && IsCarrier(m, i)
    requires IsFirstConnected(root, i, WarehousesBelow(m, |m.tiles|), r)
    ensures r == -1 || IsJoinedWarehouse(m, i, r)
    ensures forall w :: IsJoinedWarehouse(m, i, w) ==> 0 <= r <= w
  {
    if r != -1 {
      SameRootIffJoined(m, root, i, r);
    }
    forall w | IsJoinedWarehouse(m, i, w) ensures 0 <= r <= w {
      SameRootIffJoined(m, root, i, w);
      assert w in WarehousesBelow(m, |m.tiles|);
    }
  }

  ghost predicate IsJoinedWarehouse(m: Terrain, i: int, w: int) {
    m.width > 0 && IsCarrier(m, i) && IsCarrier(m, w) && m.tiles[w] == WAREHOUSE && Joined(m, i, w)
  }

  // ---- any run of edits and queries -------------------------------------------------------------

  datatype Op =
    | Change(edit: Edit)
    | AskConnected(a: Point, b: Point)
    | AskWarehouse(p: Point)
    | AskSize(p: Point)

  datatype Answer = Done | Yes(yes: bool) | Index(k: int)

  /** What an operation makes of the map and of its version. */
  function After(s: Moment, op: Op): (r: Moment)
    requires WellFormed(s.m)
    ensures WellFormed(r.m) && r.m.width == s.m.width && r.m.height == s.m.height
  {
    if op.Change? then Edited(s, op.edit) else s
  }

  /** The moment after the first n operations. */
  function MomentAfter(s: Moment, ops: seq<Op>, n: nat): (r: Moment)
    requires WellFormed(s.m) && n <= |ops|
    ensures WellFormed(r.m) && r.m.width == s.m.width && r.m.height == s.m.height
  {
    if n == 0 then s else After(MomentAfter(s, ops, n - 1), ops[n - 1])
  }

  /** The answer is right for the map. */
  ghost predicate Right(m: Terrain, op: Op, r: Answer)
    requires m.width > 0
  {
    match op
    case Change(_) => r == Done
    case AskConnected(a, b) => r == Yes(ConnectedCells(m, a, b))
    case AskWarehouse(p) =>
      && r.Index? && (r.k == -1 || IsJoinedWarehouse(m, ToIndex(p, m.width), r.k))
      && forall w :: IsJoinedWarehouse(m, ToIndex(p, m.width), w) ==> 0 <= r.k <= w
    case AskSize(p) =>
      var i := ToIndex(p, m.width);
      r == Index(if IsCarrier(m, i) then |Component(m, i)| else 0)
  }

  /** The network and the grid belong together. */
  ghost predicate Paired(net: RoadNetwork, grid: Grid)
    reads net, grid, grid.tiles, net.uf, if net.uf == null then {} else {net.uf.parent, net.uf.rank, net.uf.size}
  {
    grid.Valid() && net.Valid(grid)
  }

  method Perform(net: RoadNetwork, grid: Grid, op: Op) returns (r: Answer)
    requires Paired(net, grid)
    modifies grid, grid.tiles, net, if net.uf == null then {} else net.uf.Repr
    ensures Paired(net, grid) && (net.uf == old(net.uf) || (net.uf != null && fresh(net.uf.Repr)))
    ensures WellFormed(old(grid.Map())) && grid.width > 0
    ensures grid.Now() == After(old(grid.Now()), op) && (grid.Clean() ==> Right(grid.Map(), op, r))
  {
    match op
    case Change(edit) =>
      ghost var v, h, d := net.gridVersion, grid.history, grid.dirty;
      grid.Apply(edit);
      assert net.uf != null ==> v in h && v in grid.history && grid.history[v] == h[v];
      assert v !in grid.dirty ==> v !in d;
      r := Done;
    case AskConnected(a, b) =>
      var yes := net.AreConnected(a, b, grid);
      r := Yes(yes);
    case AskWarehouse(p) =>
      var k := net.ConnectedWarehouse(p, grid);
      r := Index(k);
    case AskSize(p) =>
      var n := net.ComponentSize(p, grid);
      r := Index(n);
  }

  /** Each answer given while the version was clean is right for the map as it was at its turn. */
  ghost predicate AllRight(s: Moment, ops: seq<Op>, answers: seq<Answer>)
    requires WellFormed(s.m) && s.m.width > 0
  {
    |answers| <= |ops| && forall i :: 0 <= i < |answers| ==> RightAt(s, ops, i, answers[i])
  }

  ghost predicate RightAt(s: Moment, ops: seq<Op>, i: nat, r: Answer)
    requires WellFormed(s.m) && s.m.width > 0 && i < |ops|
  {
    var now := MomentAfter(s, ops, i + 1);
    now.clean ==> Right(now.m, ops[i], r)
  }

  lemma OneMoreRight(s: Moment, ops: seq<Op>, answers: seq<Answer>, r: Answer)
    requires WellFormed(s.m) && s.m.width > 0 && AllRight(s, ops, answers) && |answers| < |ops|
    requires RightAt(s, ops, |answers|, r)
    ensures AllRight(s, ops, answers + [r])
  {
    hide RightAt, WellFormed;
  }

  lemma MomentAfterNext(s: Moment, ops: seq<Op>, n: nat)
    requires WellFormed(s.m) && n < |ops|
    ensures MomentAfter(s, ops, n + 1) == After(MomentAfter(s, ops, n), ops[n])
  {
  }

  /** However writes, pokes, version bumps and queries interleave, every query asked when the last poke
      has been followed by a bump or an effective write answers for the map as it is then: what a
      rebuild stored was filed under a version that stands for one map only. */
  method PerformAll(net: RoadNetwork, grid: Grid, ops: seq<Op>) returns (answers: seq<Answer>)
    requires Paired(net, grid)
    modifies grid, grid.tiles, net, if net.uf == null then {} else net.uf.Repr
    ensures Paired(net, grid) && |answers| == |ops| && WellFormed(old(grid.Map())) && grid.width > 0
    ensures grid.Now() == MomentAfter(old(grid.Now()), ops, |ops|)
    ensures AllRight(old(grid.Now()), ops, answers)
  {
    ghost var s := grid.Now();
    assert WellFormed(s.m) && s.m.width > 0;
    answers := [];
    assert MomentAfter(s, ops, 0) == s && AllRight(s, ops, []);
    hide Paired, Right, After, MomentAfter, AllRight, WellFormed;
    for n := 0 to |ops|
      invariant Paired(net, grid) && |answers| == n && grid.Now() == MomentAfter(s, ops, n)
      invariant net.uf == old(net.uf) || (net.uf != null && fresh(net.uf.Repr))
      invariant AllRight(s, ops, answers)
    {
      var r := Perform(net, grid, ops[n]);
      MomentAfterNext(s, ops, n);
      OneMoreRight(s, ops, answers, r);
      answers := answers + [r];
    }
  }
}
