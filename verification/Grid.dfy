/** world/grid.py: the versioned tile grid. */
module Grids {
  import opened Tiles

  /** What can happen to the tiles: a write through the grid, a write into the tile array behind its
      back, and the bump that bulk edits end with. */
  datatype Edit = Write(p: Point, t: int) | Poke(p: Point, t: int) | Bump

  /** The map at one moment, and whether the version has moved since the last poke. */
  datatype Moment = Moment(m: Terrain, clean: bool)

  /** The tile array counts negative indices from its end. */
  function Wrapped(p: Point, m: Terrain): Point {
    Point(if p.x < 0 then p.x + m.width else p.x, if p.z < 0 then p.z + m.height else p.z)
  }

  function Edited(s: Moment, e: Edit): (r: Moment)
    requires WellFormed(s.m)
    ensures WellFormed(r.m) && r.m.width == s.m.width && r.m.height == s.m.height
  {
    match e
    case Write(p, t) => var m := WriteTile(s.m, p, t); Moment(m, s.clean || m != s.m)
    case Poke(p, t) => var m := WriteTile(s.m, Wrapped(p, s.m), t); Moment(m, s.clean && m == s.m)
    case Bump => Moment(s.m, true)
  }

  /** `history` records which map each version number stood for when it began, `dirty` the versions
      under which tiles were then poked; a clean version stands for one map, and that is what lets a
      cache that remembers only a version number say something about tiles. */
  class Grid {
    const width: nat
    const height: nat
    const tiles: array<int>
    var version: int
    ghost var history: map<int, Terrain>
    ghost var dirty: set<int>

    /** No tile has been poked since the version last moved. */
    ghost predicate Clean()
      reads this
    {
      version !in dirty
    }

    function Map(): Terrain
      reads tiles
    {
      Terrain(width, height, tiles[..])
    }

    ghost predicate Valid()
      reads this, tiles
    {
      && width >= 1 && height >= 1 && tiles.Length == width * height
      && version in history && (Clean() ==> history[version] == Map())
      && (forall v :: v in dirty ==> v <= version)
      && (forall v :: v in history ==> 1 <= v <= version)
      && (forall v :: v in history ==>
            WellFormed(history[v]) && history[v].width == width && history[v].height == height)
    }

    constructor (width: nat, height: nat, fill: int)
      requires width >= 1 && height >= 1
      ensures Valid() && fresh(this) && fresh(tiles) && version == 1 && Clean()
      ensures this.width == width && this.height == height
      ensures forall k :: 0 <= k < tiles.Length ==> tiles[k] == fill % 256
    {
      this.width, this.height := width, height;
      tiles := new int[width * height](_ => fill % 256);
      version := 1;
      dirty := {};
      new;
      history := map[1 := Map()];
    }

    ghost function Now(): Moment
      reads this, tiles
    {
      Moment(Map(), Clean())
    }

    /** Writes a tile; an effective write, and only that, moves the version, so writes alone never let
        a version stand for two different maps. */
    method SetTile(p: Point, tileId: int) returns (changed: bool)
      requires Valid()
      modifies this, tiles
      ensures Valid()
      ensures changed <==> InBounds(p, old(Map())) && old(TileAt(Map(), p)) != tileId % 256
      ensures version == if changed then old(version) + 1 else old(version)
      ensures history == if changed then old(history)[version := Map()] else old(history)
      ensures Map() == WriteTile(old(Map()), p, tileId) && dirty == old(dirty)
      ensures Now() == Edited(old(Now()), Write(p, tileId))
    {
      var id := tileId % 256;
      if !(0 <= p.x < width && 0 <= p.z < height) {
        return false;
      }
      PointOfIndexOfPoint(p, Map());
      var k := ToIndex(p, width);
      if tiles[k] == id {
        return false;
      }
      tiles[k] := id;
      version := version + 1;
      history := history[version := Map()];
      return true;
    }

    /** The bump after edits that bypassed SetTile: whatever they were, the new version stands for the
        map as it is now. */
    method BumpVersion() returns (v: int)
      requires Valid()
      modifies this
      ensures Valid() && v == version == old(version) + 1 && Map() == old(Map())
      ensures history == old(history)[version := Map()] && dirty == old(dirty)
      ensures Clean() && Now() == Edited(old(Now()), Bump)
    {
      version := version + 1;
      history := history[version := Map()];
      return version;
    }

    /** A store into the tile array itself; outside the array it fails and changes nothing. */
    method PokeTile(p: Point, tileId: int)
      requires Valid()
      modifies `dirty, tiles
      ensures Valid() && history == old(history) && old(dirty) <= dirty
      ensures Now() == Edited(old(Now()), Poke(p, tileId))
    {
      var x, z := if p.x < 0 then p.x + width else p.x, if p.z < 0 then p.z + height else p.z;
      if 0 <= x < width && 0 <= z < height {
        PointOfIndexOfPoint(Point(x, z), Map());
        var k := ToIndex(Point(x, z), width);
        ghost var changes := tiles[k] != tileId % 256;
        tiles[k] := tileId % 256;
        dirty := if changes then dirty + {version} else dirty;
      }
    }

    /** Any one edit; versions and their maps are never forgotten. */
    method Apply(e: Edit)
      requires Valid()
      modifies this, tiles
      ensures Valid() && Now() == Edited(old(Now()), e)
      ensures forall v :: v in old(history) ==> v in history && history[v] == old(history)[v]
      ensures old(dirty) <= dirty
    {
      match e
      case Write(p, t) => var _ := SetTile(p, t);
      case Poke(p, t) => PokeTile(p, t);
      case Bump => var _ := BumpVersion();
    }
  }
}
