/** simulation/navigation/navigation_system.py: binding a cached or freshly searched path to an
    entity, and when that path may still be followed. */
module Navigation {
  import opened Wrappers
  import opened Tiles
  import opened Routes
  import opened StepCosts
  import opened Grids
  import PC = PathCache
  import AStar
  import Sums

  const MAX_NODES := 100_000

  /** World coordinates put the origin at the grid's centre. */
  function WorldToTile(x: real, z: real, width: nat, height: nat, tileSize: real): Point
    requires tileSize > 0.0
  {
    Point((x / tileSize + width as real / 2.0).Floor, (z / tileSize + height as real / 2.0).Floor)
  }

  /** The centre of a tile in world coordinates. */
  function TileToWorld(p: Point, width: nat, height: nat, tileSize: real): (real, real) {
    ((p.x as real - width as real / 2.0 + 0.5) * tileSize, (p.z as real - height as real / 2.0 + 0.5) * tileSize)
  }

  /** Along one axis: tile k of a row of n covers [(k - n/2) s, (k - n/2 + 1) s). */
  lemma AxisIff(x: real, n: nat, s: real, k: int)
    requires s > 0.0
    ensures (x / s + n as real / 2.0).Floor == k <==>
      (k as real - n as real / 2.0) * s <= x < (k as real - n as real / 2.0 + 1.0) * s
  {
    var lo := k as real - n as real / 2.0;
    Sums.QuotientBetween(x, s, lo);
    Sums.FloorIff(x / s + n as real / 2.0, k);
  }

  /** A tile is where its square is, and its centre lies in it. */
  lemma TileIsItsSquare(x: real, z: real, width: nat, height: nat, s: real, p: Point)
    requires s > 0.0
    ensures WorldToTile(x, z, width, height, s) == p <==>
      && (p.x as real - width as real / 2.0) * s <= x < (p.x as real - width as real / 2.0 + 1.0) * s
      && (p.z as real - height as real / 2.0) * s <= z < (p.z as real - height as real / 2.0 + 1.0) * s
  {
    AxisIff(x, width, s, p.x);
    AxisIff(z, height, s, p.z);
  }

  lemma TileOfCentre(p: Point, width: nat, height: nat, s: real)
    requires s > 0.0
    ensures var (x, z) := TileToWorld(p, width, height, s);
      WorldToTile(x, z, width, height, s) == p
  {
    var (x, z) := TileToWorld(p, width, height, s);
    var a, b := p.x as real - width as real / 2.0, p.z as real - height as real / 2.0;
    Sums.OrderScales(a, a + 0.5, s);
    Sums.OrderScales(a + 1.0, a + 0.5, s);
    Sums.OrderScales(b, b + 0.5, s);
    Sums.OrderScales(b + 1.0, b + 0.5, s);
    TileIsItsSquare(x, z, width, height, s, p);
  }

  class Entity {
    var x: real
    var z: real
    const faction: string
    var path: Option<seq<Point>>
    var pathIndex: nat
    var pathGridVersion: int
    var targetTile: Option<Point>

    constructor (x: real, z: real, faction: string)
      ensures path.None? && this.x == x && this.z == z && this.faction == faction && pathGridVersion == -1
    {
      this.x, this.z, this.faction := x, z, faction;
      path, pathIndex, pathGridVersion, targetTile := None, 0, -1, None;
    }

    method ClearPath()
      modifies this
      ensures path.None? && pathIndex == 0 && pathGridVersion == -1 && targetTile.None?
      ensures x == old(x) && z == old(z)
    {
      path, pathIndex, pathGridVersion, targetTile := None, 0, -1, None;
    }

    method Bind(p: seq<Point>, version: int, goal: Point)
      modifies this
      ensures path == Some(p) && pathIndex == 0 && pathGridVersion == version && targetTile == Some(goal)
      ensures x == old(x) && z == old(z)
    {
      path, pathIndex, pathGridVersion, targetTile := Some(p), 0, version, Some(goal);
    }
  }

  predicate HasActivePath(e: Entity, grid: Grid)
    reads e, grid
  {
    e.path.Some? && e.pathIndex < |e.path.value| && e.pathGridVersion == grid.version
  }

  // ---- what a remembered version vouches for ------------------------------------

  /** An entry filed under a clean version leads from start to goal on the map it stands for. */
  ghost predicate SoundEntry(history: map<int, Terrain>, dirty: set<int>, e: PC.Entry) {
    var v := e.key.gridVersion;
    && v in history && e.path != []
    && (v !in dirty ==> WellFormed(history[v]) && IsRoute(Enterables(history[v]), e.key.start, e.key.goal, e.path))
  }

  ghost predicate SoundCache(history: map<int, Terrain>, dirty: set<int>, c: seq<PC.Entry>) {
    forall e :: e in c ==> SoundEntry(history, dirty, e)
  }

  ghost predicate SoundPath(history: map<int, Terrain>, dirty: set<int>, path: Option<seq<Point>>, version: int) {
    path.Some? ==>
      version in history
      && (version !in dirty ==> WellFormed(history[version]) && Walkable(Enterables(history[version]), path.value))
  }

  ghost predicate Sound(grid: Grid, cache: PC.PathCache, entities: set<Entity>)
    reads grid, grid.tiles, cache, entities
  {
    && grid.Valid() && cache.Valid() && SoundCache(grid.history, grid.dirty, cache.cache)
    && forall e :: e in entities ==> SoundPath(grid.history, grid.dirty, e.path, e.pathGridVersion)
  }

  /** Whenever an entity counts as having an active path, and no tile has been poked since the version
      last moved, that path is walkable on the tiles as they are now. */
  lemma ActivePathIsWalkableNow(grid: Grid, cache: PC.PathCache, entities: set<Entity>, e: Entity)
    requires Sound(grid, cache, entities) && e in entities && HasActivePath(e, grid) && grid.Clean()
    ensures Walkable(Enterables(grid.Map()), e.path.value) && e.pathIndex < |e.path.value|
  {
    assert SoundPath(grid.history, grid.dirty, e.path, e.pathGridVersion);
  }

  /** A cache hit under a current and clean version leads from start to goal on the tiles as they are
      now, even if step costs have moved since it was stored. */
  lemma CurrentHitIsRouteNow(grid: Grid, cache: PC.PathCache, entities: set<Entity>, key: PC.Key)
    requires Sound(grid, cache, entities) && key.gridVersion == grid.version && grid.Clean()
    requires PC.Find(cache.cache, key).Some?
    ensures IsRoute(Enterables(grid.Map()), key.start, key.goal, PC.Find(cache.cache, key).value)
  {
    assert SoundEntry(grid.history, grid.dirty, PC.Entry(key, PC.Find(cache.cache, key).value));
  }

  /** And if the cache keeps to a tariff, it is what a search under the costs of its cost version promises. */
  lemma CurrentHitIsWorthTaking(grid: Grid, cache: PC.PathCache, tariff: Tariff, key: PC.Key)
    requires grid.Valid() && WorthCache(grid.history, grid.dirty, tariff, cache.cache)
    requires key.gridVersion == grid.version && grid.Clean() && PC.Find(cache.cache, key).Some?
    requires Shaped(tariff(key.costVersion), grid.Map())
    ensures AStar.WorthTaking(grid.Map(), tariff(key.costVersion), key.start, key.goal,
                              PC.Find(cache.cache, key).value)
  {
    assert WorthEntry(grid.history, grid.dirty, tariff, PC.Entry(key, PC.Find(cache.cache, key).value));
    hide AStar.WorthTaking;
  }

  lemma NoPathIsSound(h: map<int, Terrain>, d: set<int>, version: int)
    ensures SoundPath(h, d, None, version)
  {
  }

  lemma StayingIsSound(h: map<int, Terrain>, d: set<int>, p: Point, version: int, m: Terrain)
    requires version in h && WellFormed(m) && WellFormed(h[version])
    ensures SoundPath(h, d, Some([p]), version) && IsRoute(Enterables(m), p, p, [p])
  {
  }

  lemma LookupKeepsSound(h: map<int, Terrain>, d: set<int>, c: seq<PC.Entry>, key: PC.Key)
    requires PC.DistinctKeys(c) && SoundCache(h, d, c)
    ensures SoundCache(h, d, PC.LookedUp(c, key))
  {
    PC.LookupKeepsShape(c, key);
    hide SoundEntry, PC.LookedUp;
  }

  lemma MissMovesNothing(c: seq<PC.Entry>, key: PC.Key)
    requires PC.Find(c, key).None?
    ensures PC.LookedUp(c, key) == c
  {
  }

  lemma HitIsSound(h: map<int, Terrain>, d: set<int>, c: seq<PC.Entry>, key: PC.Key)
    requires SoundCache(h, d, c) && PC.Find(c, key).Some?
    ensures SoundPath(h, d, Some(PC.Find(c, key).value), key.gridVersion)
  {
    assert SoundEntry(h, d, PC.Entry(key, PC.Find(c, key).value));
  }

  lemma HitIsRoute(h: map<int, Terrain>, d: set<int>, c: seq<PC.Entry>, key: PC.Key)
    requires SoundCache(h, d, c) && PC.Find(c, key).Some?
    ensures key.gridVersion in h && PC.Find(c, key).value != []
    ensures key.gridVersion !in d ==>
      (&& WellFormed(h[key.gridVersion])
       && IsRoute(Enterables(h[key.gridVersion]), key.start, key.goal, PC.Find(c, key).value))
  {
    assert SoundEntry(h, d, PC.Entry(key, PC.Find(c, key).value));
  }

  /** A path found on the map as it is may be filed under the current version: if that is clean it
      stands for this map. */
  lemma FoundIsSound(h: map<int, Terrain>, d: set<int>, m: Terrain, key: PC.Key, path: seq<Point>)
    requires key.gridVersion in h && (key.gridVersion !in d ==> h[key.gridVersion] == m) && WellFormed(m)
    requires IsRoute(Enterables(m), key.start, key.goal, path)
    ensures SoundEntry(h, d, PC.Entry(key, path)) && SoundPath(h, d, Some(path), key.gridVersion) && path != []
  {
  }

  lemma StoreKeepsSound(h: map<int, Terrain>, d: set<int>, c: seq<PC.Entry>, max: nat, key: PC.Key, path: PC.Path)
    requires PC.DistinctKeys(c) && |c| <= max && SoundCache(h, d, c) && SoundEntry(h, d, PC.Entry(key, path))
    ensures SoundCache(h, d, PC.Stored(c, max, key, path))
  {
    PC.StoreKeepsShape(c, max, key, path);
    hide SoundEntry, PC.Stored;
  }

  /** What a call leaves in the cache: nothing new when there is nothing to search for; a hit that has
      become the newest entry; or a miss, and with it the path if one was found. */
  ghost predicate Cached(was: seq<PC.Entry>, now: seq<PC.Entry>, max: nat, key: PC.Key, path: Option<seq<Point>>) {
    if key.start == key.goal then now == was && path == Some([key.start])
    else if PC.Find(was, key).Some? then now == PC.LookedUp(was, key) && path == PC.Find(was, key)
    else now == if path.Some? then PC.Stored(was, max, key, path.value) else was
  }

  /** Binds the cached path under the faction, the version of the grid, the version of the costs and
      both ends, or else searches under the given costs and files what is found. */
  method SetTargetAndPath(e: Entity, goal: Point, grid: Grid, tileSize: real, cache: PC.PathCache,
                          costs: Costs, costVersion: int, ghost entities: set<Entity>) returns (bound: bool)
    requires tileSize > 0.0 && e in entities && Sound(grid, cache, entities) && Shaped(costs, grid.Map())
    modifies e, cache
    ensures Sound(grid, cache, entities)
    ensures var start := WorldToTile(old(e.x), old(e.z), grid.width, grid.height, tileSize);
      && (bound ==> HasActivePath(e, grid) && e.targetTile == Some(goal))
      && (bound && grid.Clean() ==> IsRoute(Enterables(grid.Map()), start, goal, e.path.value))
      && (!bound ==> e.path.None? && e.targetTile.None?)
      && (!bound && InBounds(start, grid.Map()) && InBounds(goal, grid.Map()) ==>
           100_000 < grid.tiles.Length || !Reachable(Enterables(grid.Map()), start, goal))
    ensures var start := WorldToTile(old(e.x), old(e.z), grid.width, grid.height, tileSize);
      var key := PC.Key(e.faction, grid.version, costVersion, start, goal);
      var hit := PC.Find(old(cache.cache), key).Some?;
      && (bound <==> e.path.Some?) && (bound ==> e.pathIndex == 0)
      && Cached(old(cache.cache), cache.cache, cache.maxEntries, key, e.path)
      && cache.hits == old(cache.hits) + (if start != goal && hit then 1 else 0)
      && cache.misses == old(cache.misses) + (if start != goal && !hit then 1 else 0)
      && (bound && start != goal && !hit ==> AStar.WorthTaking(grid.Map(), costs, start, goal, e.path.value))
  {
    hide SoundCache, SoundEntry, SoundPath, IsRoute, Walkable, Enterables, AStar.BeatsFloored,
      AStar.NearlyCheapest, AStar.Cheapest, AStar.Temperate, AStar.Roadless, Simple, CostField, Shaped,
      PC.LookedUp, PC.Stored;
    var start := WorldToTile(e.x, e.z, grid.width, grid.height, tileSize);
    ghost var h, d := grid.history, grid.dirty;
    if start == goal {
      StayingIsSound(h, d, start, grid.version, grid.Map());
      e.Bind([start], grid.version, goal);
      return true;
    }
    var key := PC.Key(e.faction, grid.version, costVersion, start, goal);
    ghost var c0 := cache.cache;
    LookupKeepsSound(h, d, c0, key);
    var hit := cache.Lookup(key);
    if hit.Some? {
      HitIsSound(h, d, c0, key);
      HitIsRoute(h, d, c0, key);
      e.Bind(hit.value, grid.version, goal);
      return true;
    }
    MissMovesNothing(c0, key);
    var found := AStar.Search(grid.Map(), costs, start, goal, MAX_NODES);
    if found.None? {
      e.ClearPath();
      NoPathIsSound(h, d, -1);
      return false;
    }
    FoundIsSound(h, d, grid.Map(), key, found.value);
    StoreKeepsSound(h, d, cache.cache, cache.maxEntries, key, found.value);
    cache.RecordResult(key, found.value);
    e.Bind(found.value, grid.version, goal);
    return true;
  }

  // ---- what a remembered cost version vouches for ------------------------------------

  /** The costs that the caller means by each cost version. */
  type Tariff = int -> Costs

  /** An entry filed under a clean version of the map is what a search under the costs of its cost version
      promises. */
  ghost predicate WorthEntry(h: map<int, Terrain>, d: set<int>, tariff: Tariff, e: PC.Entry) {
    var v, costs := e.key.gridVersion, tariff(e.key.costVersion);
    v in h && v !in d && WellFormed(h[v]) && Shaped(costs, h[v]) ==>
      AStar.WorthTaking(h[v], costs, e.key.start, e.key.goal, e.path)
  }

  ghost predicate WorthCache(h: map<int, Terrain>, d: set<int>, tariff: Tariff, c: seq<PC.Entry>) {
    forall e :: e in c ==> WorthEntry(h, d, tariff, e)
  }

  /** A call under the costs meant by its cost version leaves such a cache. */
  lemma CallKeepsWorth(h: map<int, Terrain>, d: set<int>, tariff: Tariff, was: seq<PC.Entry>, now: seq<PC.Entry>,
                       max: nat, key: PC.Key, path: Option<seq<Point>>, m: Terrain)
    requires WorthCache(h, d, tariff, was) && Cached(was, now, max, key, path)
    requires PC.DistinctKeys(was) && |was| <= max
    requires WellFormed(m) && Shaped(tariff(key.costVersion), m)
    requires key.gridVersion in h && key.gridVersion !in d ==> h[key.gridVersion] == m
    requires path.Some? && key.start != key.goal && PC.Find(was, key).None? ==>
               AStar.WorthTaking(m, tariff(key.costVersion), key.start, key.goal, path.value)
    ensures WorthCache(h, d, tariff, now)
  {
    if key.start != key.goal {
      if PC.Find(was, key).Some? {
        PC.LookupKeepsShape(was, key);
      } else if path.Some? {
        PC.StoreKeepsShape(was, max, key, path.value);
        assert WorthEntry(h, d, tariff, PC.Entry(key, path.value));
      }
    }
    hide WorthEntry, AStar.WorthTaking, PC.LookedUp, PC.Stored;
  }

  lemma GrowthKeepsWorth(h: map<int, Terrain>, d: set<int>, h': map<int, Terrain>, d': set<int>, tariff: Tariff,
                         c: seq<PC.Entry>)
    requires (forall v :: v in h ==> v in h' && h'[v] == h[v]) && d <= d' && WorthCache(h, d, tariff, c)
    requires forall e :: e in c ==> e.key.gridVersion in h
    ensures WorthCache(h', d', tariff, c)
  {
    forall e | e in c ensures WorthEntry(h', d', tariff, e) {
      assert WorthEntry(h, d, tariff, e);
    }
    hide AStar.WorthTaking;
  }

  // ---- arbitrary interleavings -----------------------------------------------------

  datatype Op =
    | Change(edit: Edit)
    | Go(agent: nat, goal: Point, costs: Costs, costVersion: int)
    | Move(agent: nat, x: real, z: real, pathIndex: nat)
    | DropOlder(version: int)
    | DropAll

  /** The map after the first n operations, and whether its version is clean. */
  function AllEdited(s: Moment, ops: seq<Op>, n: nat): (r: Moment)
    requires WellFormed(s.m) && n <= |ops|
    ensures WellFormed(r.m)
  {
    if n == 0 then s
    else
      var before := AllEdited(s, ops, n - 1);
      if ops[n - 1].Change? then Edited(before, ops[n - 1].edit) else before
  }

  /** Heights given for a search have the shape of the grid. */
  predicate Fits(op: Op, width: nat, height: nat) {
    op.Go? ==> Shaped(op.costs, Terrain(width, height, []))
  }

  /** A search is made under the costs that its cost version means. */
  predicate Honours(op: Op, tariff: Tariff) {
    op.Go? ==> op.costs == tariff(op.costVersion)
  }

  method Perform(op: Op, grid: Grid, tileSize: real, cache: PC.PathCache, agents: seq<Entity>,
                 ghost entities: set<Entity>, ghost tariff: Tariff)
    requires tileSize > 0.0 && entities == (set e | e in agents) && Fits(op, grid.width, grid.height)
    requires Sound(grid, cache, entities)
    modifies grid, grid.tiles, cache, agents
    ensures Sound(grid, cache, entities) && WellFormed(old(grid.Map()))
    ensures grid.Now() == if op.Change? then Edited(old(grid.Now()), op.edit) else old(grid.Now())
    ensures Honours(op, tariff) && old(WorthCache(grid.history, grid.dirty, tariff, cache.cache)) ==>
              WorthCache(grid.history, grid.dirty, tariff, cache.cache)
  {
    hide WorthCache;
    ghost var h, d, was := grid.history, grid.dirty, cache.cache;
    match op
    case Change(edit) =>
      grid.Apply(edit);
      GrowthKeepsAll(h, d, grid.history, grid.dirty, cache, entities);
      if WorthCache(h, d, tariff, was) { GrowthKeepsWorth(h, d, grid.history, grid.dirty, tariff, was); }
    case Go(a, goal, costs, costVersion) =>
      if a < |agents| {
        ghost var e := agents[a];
        ghost var start := WorldToTile(e.x, e.z, grid.width, grid.height, tileSize);
        var _ := SetTargetAndPath(agents[a], goal, grid, tileSize, cache, costs, costVersion, entities);
        if Honours(op, tariff) && WorthCache(h, d, tariff, was) {
          var key := PC.Key(e.faction, grid.version, costVersion, start, goal);
          CallKeepsWorth(h, d, tariff, was, cache.cache, cache.maxEntries, key, e.path, grid.Map());
        }
      }
    case Move(a, x, z, i) =>
      if a < |agents| {
        agents[a].x, agents[a].z, agents[a].pathIndex := x, z, i;
      }
    case DropOlder(version) =>
      var _ := cache.InvalidateGridVersion(version);
      FewerKeepWorth(h, d, tariff, was, cache.cache);
    case DropAll =>
      cache.Clear();
      FewerKeepWorth(h, d, tariff, was, cache.cache);
  }

  lemma FewerKeepWorth(h: map<int, Terrain>, d: set<int>, tariff: Tariff, c: seq<PC.Entry>, c': seq<PC.Entry>)
    requires forall e :: e in c' ==> e in c
    ensures WorthCache(h, d, tariff, c) ==> WorthCache(h, d, tariff, c')
  {
    hide WorthEntry;
  }

  /** Edits add versions and dirty some; nothing that was vouched for under a clean one is lost. */
  lemma GrowthKeepsAll(h: map<int, Terrain>, d: set<int>, h': map<int, Terrain>, d': set<int>,
                       cache: PC.PathCache, entities: set<Entity>)
    requires (forall v :: v in h ==> v in h' && h'[v] == h[v]) && d <= d'
    requires SoundCache(h, d, cache.cache)
    requires forall e :: e in entities ==> SoundPath(h, d, e.path, e.pathGridVersion)
    ensures SoundCache(h', d', cache.cache)
    ensures forall e :: e in entities ==> SoundPath(h', d', e.path, e.pathGridVersion)
  {
    forall e | e in cache.cache ensures SoundEntry(h', d', e) {
      assert SoundEntry(h, d, e);
    }
  }

  /** However writes, pokes, version bumps, searches, moves and invalidations interleave, if the last
      poke has been followed by a bump or an effective write, every entity with an active path stands
      on one that is walkable now, and every current cache entry is a route now. If searches honour a
      tariff, what is filed under a cost version is as good as a search under its costs. */
  method PerformAll(ops: seq<Op>, grid: Grid, tileSize: real, cache: PC.PathCache, agents: seq<Entity>,
                    ghost entities: set<Entity>, ghost tariff: Tariff)
    requires tileSize > 0.0 && entities == (set e | e in agents)
    requires forall op :: op in ops ==> Fits(op, grid.width, grid.height)
    requires Sound(grid, cache, entities)
    modifies grid, grid.tiles, cache, agents
    ensures Sound(grid, cache, entities) && WellFormed(old(grid.Map()))
    ensures grid.Now() == AllEdited(old(grid.Now()), ops, |ops|)
    ensures forall e :: e in agents && HasActivePath(e, grid) && grid.Clean() ==>
              Walkable(Enterables(grid.Map()), e.path.value)
    ensures forall key: PC.Key :: key.gridVersion == grid.version && PC.Find(cache.cache, key).Some? && grid.Clean() ==>
              IsRoute(Enterables(grid.Map()), key.start, key.goal, PC.Find(cache.cache, key).value)
    ensures (forall op :: op in ops ==> Honours(op, tariff))
            && old(WorthCache(grid.history, grid.dirty, tariff, cache.cache)) ==>
              WorthCache(grid.history, grid.dirty, tariff, cache.cache)
  {
    ghost var was := grid.Now();
    hide WorthCache;
    for i := 0 to |ops|
      invariant Sound(grid, cache, entities) && grid.Now() == AllEdited(was, ops, i)
      invariant (forall op :: op in ops ==> Honours(op, tariff))
                && old(WorthCache(grid.history, grid.dirty, tariff, cache.cache)) ==>
                  WorthCache(grid.history, grid.dirty, tariff, cache.cache)
    {
      Perform(ops[i], grid, tileSize, cache, agents, entities, tariff);
    }
    if grid.Clean() {
      forall e | e in agents && HasActivePath(e, grid) ensures Walkable(Enterables(grid.Map()), e.path.value) {
        ActivePathIsWalkableNow(grid, cache, entities, e);
      }
      forall key: PC.Key | key.gridVersion == grid.version && PC.Find(cache.cache, key).Some?
        ensures IsRoute(Enterables(grid.Map()), key.start, key.goal, PC.Find(cache.cache, key).value)
      {
        CurrentHitIsRouteNow(grid, cache, entities, key);
      }
    }
  }

  /** Without a bump a poke goes unseen: the path stays active, and leads into a wall. */
  method PokeUnseen() returns (grid: Grid, e: Entity)
    ensures grid.Valid() && HasActivePath(e, grid) && !grid.Clean()
    ensures !Walkable(Enterables(grid.Map()), e.path.value)
  {
    grid := new Grid(2, 1, GRASS);
    e := new Entity(0.0, 0.0, "colony");
    var path := [Point(0, 0), Point(1, 0)];
    e.Bind(path, grid.version, Point(1, 0));
    assert TileAt(grid.Map(), Point(1, 0)) == GRASS;
    grid.PokeTile(Point(1, 0), WALL);
    assert TileAt(grid.Map(), Point(1, 0)) == WALL;
    assert path[1] !in Enterables(grid.Map());
  }
}
