/** Tile ids, tile metadata and the row-major geometry of world/grid.py. */
module Tiles {

  const GRASS := 0
  const ROAD := 1
  const FARM := 2
  const LUMBER := 3
  const WAREHOUSE := 4
  const WALL := 5
  const RUINS := 6
  const WATER := 7
  const QUARRY := 8
  const BRIDGE := 9

  datatype Point = Point(x: int, z: int)

  /** The value of a grid at one moment: the flat, row-major tile array. */
  datatype Terrain = Terrain(width: nat, height: nat, tiles: seq<int>)

  predicate WellFormed(m: Terrain) {
    |m.tiles| == m.width * m.height
  }

  predicate InBounds(p: Point, m: Terrain) {
    0 <= p.x < m.width && 0 <= p.z < m.height
  }

  function ToIndex(p: Point, width: int): int {
    p.x + p.z * width
  }

  function OfIndex(k: int, width: int): Point
    requires width > 0
  {
    Point(k % width, k / width)
  }

  /** Row z of h rows ends at or before their end. */
  lemma RowsFit(z: nat, h: nat, w: nat)
    requires z < h
    ensures 0 <= z * w && z * w + w <= h * w
  {
    assert (h - z - 1) * w >= 0;
    assert (h - z - 1) * w == h * w - z * w - w;
  }

  /** Inside the map the flat index and the coordinate determine each other. */
  lemma PointOfIndexOfPoint(p: Point, m: Terrain)
    requires WellFormed(m) && InBounds(p, m)
    ensures 0 <= ToIndex(p, m.width) < |m.tiles|
    ensures OfIndex(ToIndex(p, m.width), m.width) == p
  {
    var w := m.width;
    RowsFit(p.z, m.height, w);
    DivModUnique(ToIndex(p, w), w, p.z, p.x);
  }

  lemma IndexOfPointOfIndex(k: int, m: Terrain)
    requires WellFormed(m) && m.width > 0 && 0 <= k < |m.tiles|
    ensures InBounds(OfIndex(k, m.width), m)
    ensures ToIndex(OfIndex(k, m.width), m.width) == k
  {
    var w := m.width;
    if k / w >= m.height {
      assert (k / w) * w >= m.height * w;
    }
  }

  lemma DivModUnique(k: int, w: int, q: int, r: int)
    requires w > 0 && 0 <= r < w && k == r + q * w
    ensures k / w == q && k % w == r
  {
    var d := k / w - q;
    assert k == (k / w) * w + k % w;
    assert d * w == (k / w) * w - q * w;
    assert d >= 1 ==> d * w >= w;
    assert d <= -1 ==> d * w <= -w;
  }

  function TileAt(m: Terrain, p: Point): int
    requires WellFormed(m) && InBounds(p, m)
  {
    PointOfIndexOfPoint(p, m);
    m.tiles[ToIndex(p, m.width)]
  }

  /** The map with one tile replaced. */
  function Written(m: Terrain, p: Point, t: int): (r: Terrain)
    requires WellFormed(m) && InBounds(p, m)
    ensures WellFormed(r)
  {
    PointOfIndexOfPoint(p, m);
    m.(tiles := m.tiles[ToIndex(p, m.width) := t])
  }

  /** Writing a tile as a byte; off the map nothing is written. */
  function WriteTile(m: Terrain, p: Point, t: int): (r: Terrain)
    requires WellFormed(m)
    ensures WellFormed(r) && r.width == m.width && r.height == m.height
  {
    if InBounds(p, m) then Written(m, p, t % 256) else m
  }

  // ---- tile metadata ------------------------------------------------------

  predicate KnownTile(t: int) {
    GRASS <= t <= BRIDGE
  }

  predicate PassableTile(t: int) {
    KnownTile(t) && t != WALL && t != WATER
  }

  function BaseCost(t: int): real
    requires KnownTile(t)
  {
    if t == ROAD || t == BRIDGE then 0.65
    else if t == WALL || t == WATER then 1000.0
    else if t == RUINS then 1.6
    else if t == QUARRY then 1.2
    else 1.0
  }

  /** A cell the search may step onto. */
  predicate Enterable(m: Terrain, p: Point)
    requires WellFormed(m)
  {
    InBounds(p, m) && PassableTile(TileAt(m, p))
  }

  // ---- distance and neighbourhood -----------------------------------------

  function AbsInt(a: int): nat {
    if a < 0 then -a else a
  }

  function Manhattan(a: Point, b: Point): nat {
    AbsInt(a.x - b.x) + AbsInt(a.z - b.z)
  }

  predicate Adjacent(a: Point, b: Point) {
    Manhattan(a, b) == 1
  }

  const MOVE_DIRECTIONS: seq<Point> := [Point(1, 0), Point(-1, 0), Point(0, 1), Point(0, -1)]

  function Neighbour(p: Point, d: nat): (n: Point)
    requires d < 4
    ensures Adjacent(p, n)
  {
    Point(p.x + MOVE_DIRECTIONS[d].x, p.z + MOVE_DIRECTIONS[d].z)
  }

  /** The four directions reach every adjacent point. */
  lemma DirectionTo(a: Point, b: Point) returns (d: nat)
    requires Adjacent(a, b)
    ensures d < 4 && Neighbour(a, d) == b
  {
    d := if b.x == a.x + 1 then 0 else if b.x == a.x - 1 then 1 else if b.z == a.z + 1 then 2 else 3;
  }
}
