/** What one step of the search costs, and how cheap a step can get. */
module StepCosts {
  import opened Wrappers
  import opened Tiles
  import opened Routes

  // ---- cost inputs --------------------------------------------------------

  datatype Elevation =
    | NoElevation
    | Flat(values: seq<real>)
    | Plane(rows: seq<seq<real>>)

  /** One layer of the nested dynamic-cost shape; an absent field is None. */
  datatype Layer = Layer(
    tiles: Option<set<Point>>,
    multiplier: Option<real>,
    byKey: Option<map<Point, real>>)

  /** The caller's argument: nested layers, or the legacy flat fields. */
  datatype DynamicCosts = DynamicCosts(
    hazards: Option<Layer>,
    traffic: Option<Layer>,
    tiles: Option<set<Point>>,
    multiplier: Option<real>)

  datatype Resolved = Resolved(
    hazardTiles: set<Point>,
    hazardMultiplier: real,
    hazardByKey: map<Point, real>,
    trafficByKey: map<Point, real>)

  function AtLeastOne(r: real): real {
    if r < 1.0 then 1.0 else r
  }

  /** Nested fields win over flat ones; the multiplier is clamped to at least one. */
  function Resolve(dynamic: Option<DynamicCosts>): Resolved {
    match dynamic
    case None => Resolved({}, 1.0, map[], map[])
    case Some(d) =>
      var tiles :=
        if d.hazards.Some? && d.hazards.value.tiles.Some? then d.hazards.value.tiles.value
        else if d.tiles.Some? then d.tiles.value
        else {};
      var mult :=
        if d.hazards.Some? && d.hazards.value.multiplier.Some? then d.hazards.value.multiplier.value
        else if d.multiplier.Some? then d.multiplier.value
        else 1.0;
      var byKey := if d.hazards.Some? && d.hazards.value.byKey.Some? then d.hazards.value.byKey.value else map[];
      var traffic := if d.traffic.Some? && d.traffic.value.byKey.Some? then d.traffic.value.byKey.value else map[];
      Resolved(tiles, AtLeastOne(mult), byKey, traffic)
  }

  datatype Costs = Costs(weather: real, elevation: Elevation, dynamic: Option<DynamicCosts>)

  /** A plane of heights has the shape of the map; a flat array may have any length. */
  predicate Shaped(c: Costs, m: Terrain) {
    c.elevation.Plane? ==>
      |c.elevation.rows| == m.height && forall z :: 0 <= z < m.height ==> |c.elevation.rows[z]| == m.width
  }

  function ElevationAt(c: Costs, m: Terrain, p: Point): real
    requires Shaped(c, m) && InBounds(p, m) && !c.elevation.NoElevation?
  {
    match c.elevation
    case Plane(rows) => rows[p.z][p.x]
    case Flat(values) =>
      var k := ToIndex(p, m.width);
      if 0 <= k < |values| then values[k] else 0.5
  }

  /** What entering the tile costs before hazards and traffic. */
  function TerrainCost(m: Terrain, c: Costs, p: Point): real
    requires WellFormed(m) && Shaped(c, m) && Enterable(m, p)
  {
    var t := TileAt(m, p);
    var raised := BaseCost(t) + (if c.elevation.NoElevation? then 0.0 else ElevationAt(c, m, p) * 0.4);
    if t != ROAD then Times(raised, c.weather) else raised
  }

  function Times(x: real, y: real): real {
    x * y
  }

  function HazardFactor(r: Resolved, p: Point): real {
    if p in r.hazardTiles then
      AtLeastOne(if p in r.hazardByKey then r.hazardByKey[p] else r.hazardMultiplier)
    else 1.0
  }

  function TrafficFactor(r: Resolved, p: Point): real {
    if p in r.trafficByKey then AtLeastOne(r.trafficByKey[p]) else 1.0
  }

  function StepCost(m: Terrain, c: Costs, p: Point): real
    requires WellFormed(m) && Shaped(c, m) && Enterable(m, p)
  {
    var r := Resolve(c.dynamic);
    Times(Times(TerrainCost(m, c, p), HazardFactor(r, p)), TrafficFactor(r, p))
  }

  /** The step cost of every enterable tile, as one value. */
  function CostField(m: Terrain, c: Costs): (f: map<Point, real>)
    requires WellFormed(m) && Shaped(c, m)
    ensures f.Keys == Enterables(m)
  {
    map p | p in Enterables(m) :: StepCost(m, c, p)
  }

  // ---- lower bounds on a step ----------------------------------------------

  ghost predicate NoDescent(m: Terrain, c: Costs)
    requires Shaped(c, m)
  {
    !c.elevation.NoElevation? ==> forall p :: InBounds(p, m) ==> ElevationAt(c, m, p) >= 0.0
  }

  lemma ScaleUp(a: real, f: real)
    requires f >= 1.0
    ensures a >= 0.0 ==> Times(a, f) >= a
    ensures a <= 0.0 ==> Times(a, f) <= a
  {
    if a >= 0.0 { assert a * (f - 1.0) >= 0.0; } else { assert a * (f - 1.0) <= 0.0; }
  }

  /** Hazards and traffic only ever move a cost away from zero: they never speed travel up, unless a
      cost is negative to begin with. */
  lemma DynamicCostsNeverSpeedUp(m: Terrain, c: Costs, p: Point)
    requires WellFormed(m) && Shaped(c, m) && Enterable(m, p)
    ensures TerrainCost(m, c, p) >= 0.0 ==> StepCost(m, c, p) >= TerrainCost(m, c, p)
    ensures TerrainCost(m, c, p) <= 0.0 ==> StepCost(m, c, p) <= TerrainCost(m, c, p)
  {
    var r, t := Resolve(c.dynamic), TerrainCost(m, c, p);
    ScaleUp(t, HazardFactor(r, p));
    ScaleUp(Times(t, HazardFactor(r, p)), TrafficFactor(r, p));
  }

  lemma TerrainCostAtLeastBase(m: Terrain, c: Costs, p: Point)
    requires WellFormed(m) && Shaped(c, m) && Enterable(m, p)
    requires c.weather >= 1.0 && NoDescent(m, c)
    ensures TerrainCost(m, c, p) >= BaseCost(TileAt(m, p))
  {
    var b := BaseCost(TileAt(m, p));
    var raised := b + (if c.elevation.NoElevation? then 0.0 else ElevationAt(c, m, p) * 0.4);
    assert raised >= b;
    ScaleUp(raised, c.weather);
  }

  /** In fair or foul weather and on non-negative heights, no step is cheaper than a road tile. */
  lemma EveryStepCostsARoad(m: Terrain, c: Costs)
    requires WellFormed(m) && Shaped(c, m)
    requires c.weather >= 1.0 && NoDescent(m, c)
    ensures StepsAtLeast(CostField(m, c), 0.65)
  {
    forall p | p in CostField(m, c) ensures StepCost(m, c, p) >= 0.65 {
      TerrainCostAtLeastBase(m, c, p);
      DynamicCostsNeverSpeedUp(m, c, p);
    }
  }

  lemma WithoutRoadsEveryStepCostsOne(m: Terrain, c: Costs)
    requires WellFormed(m) && Shaped(c, m)
    requires c.weather >= 1.0 && NoDescent(m, c)
    requires forall k :: 0 <= k < |m.tiles| ==> m.tiles[k] != ROAD && m.tiles[k] != BRIDGE
    ensures StepsAtLeast(CostField(m, c), 1.0)
  {
    forall p | p in CostField(m, c) ensures StepCost(m, c, p) >= 1.0 {
      PointOfIndexOfPoint(p, m);
      TerrainCostAtLeastBase(m, c, p);
      DynamicCostsNeverSpeedUp(m, c, p);
    }
  }

  /** Two road tiles in fair weather are enough for the heuristic to overestimate. */
  lemma HeuristicOverestimates() returns (m: Terrain, c: Costs, path: seq<Point>)
    ensures WellFormed(m) && Shaped(c, m) && c.weather >= 1.0 && NoDescent(m, c)
    ensures IsRoute(Enterables(m), Point(0, 0), Point(1, 0), path)
    ensures Cost(CostField(m, c), path) < Manhattan(Point(0, 0), Point(1, 0)) as real
  {
    var a, b := Point(0, 0), Point(1, 0);
    m, c, path := Terrain(2, 1, [ROAD, ROAD]), Costs(1.0, NoElevation, None), [a, b];
    var f := CostField(m, c);
    assert b in Enterables(m) && f[b] == StepCost(m, c, b) == 0.65;
    hide CostField;
    assert path[..1] == [a];
    assert Cost(f, [a]) == 0.0;
  }

  // ---- what a step costs, law by law ------------------------------------------

  /** What may be entered, by tile id. */
  lemma EnterableIff(m: Terrain, p: Point)
    requires WellFormed(m)
    ensures p in Enterables(m) <==> InBounds(p, m) && TileAt(m, p) in {0, 1, 2, 3, 4, 6, 8, 9}
  {
  }

  /** On flat ground in weather w without hazards and traffic, by tile id; only road, 1, is dry. */
  lemma PlainStep(m: Terrain, w: real, p: Point)
    requires WellFormed(m) && p in Enterables(m)
    ensures var t := TileAt(m, p);
      CostField(m, Costs(w, NoElevation, None))[p] ==
        if t == 1 then 0.65 else if t == 9 then 0.65 * w else if t == 6 then 1.6 * w else if t == 8 then 1.2 * w else w
  {
  }

  /** The height the search reads at a tile: row by row, or by flat index with 0.5 past the end. */
  ghost predicate HasHeight(m: Terrain, e: Elevation, p: Point, h: real) {
    match e
    case NoElevation => h == 0.0
    case Plane(rows) => 0 <= p.z < |rows| && 0 <= p.x < |rows[p.z]| && h == rows[p.z][p.x]
    case Flat(values) =>
      var k := p.x + p.z * m.width;
      k >= 0 && h == if k < |values| then values[k] else 0.5
  }

  /** Without hazards and traffic nothing but the terrain is charged. */
  lemma UndisturbedStep(m: Terrain, c: Costs, p: Point)
    requires WellFormed(m) && Shaped(c, m) && c.dynamic.None? && p in Enterables(m)
    ensures CostField(m, c)[p] == TerrainCost(m, c, p)
  {
    hide TerrainCost, Enterable, Shaped, WellFormed;
  }

  /** A height of h adds 0.4 h before the weather. */
  lemma HeightAdds(m: Terrain, w: real, e: Elevation, p: Point, h: real)
    requires WellFormed(m) && Shaped(Costs(w, e, None), m) && p in Enterables(m) && HasHeight(m, e, p, h)
    ensures CostField(m, Costs(w, e, None))[p] ==
      CostField(m, Costs(w, NoElevation, None))[p] + 0.4 * h * (if TileAt(m, p) == 1 then 1.0 else w)
  {
    hide CostField, WellFormed, Times, TileAt, BaseCost, HasHeight, TerrainCost;
    UndisturbedStep(m, Costs(w, e, None), p);
    UndisturbedStep(m, Costs(w, NoElevation, None), p);
    RaisedTerrain(m, w, e, p, h);
    HeightDistributes(BaseCost(TileAt(m, p)), h, w);
  }

  lemma RaisedTerrain(m: Terrain, w: real, e: Elevation, p: Point, h: real)
    requires WellFormed(m) && Shaped(Costs(w, e, None), m) && Enterable(m, p) && HasHeight(m, e, p, h)
    ensures var t := TileAt(m, p);
      var b := BaseCost(t);
      && TerrainCost(m, Costs(w, e, None), p) == (if t == 1 then b + h * 0.4 else Times(b + h * 0.4, w))
      && TerrainCost(m, Costs(w, NoElevation, None), p) == (if t == 1 then b else Times(b, w))
  {
    PointOfIndexOfPoint(p, m);
    hide WellFormed, Times, TileAt, BaseCost;
  }

  lemma HeightDistributes(b: real, h: real, w: real)
    ensures Times(b + h * 0.4, w) == Times(b, w) + 0.4 * h * w
  {
    assert (b + h * 0.4) * w == b * w + h * 0.4 * w;
  }

  /** Weather scales every tile but road, whatever else there is. */
  lemma WeatherScales(m: Terrain, c: Costs, p: Point)
    requires WellFormed(m) && Shaped(c, m) && p in Enterables(m)
    ensures CostField(m, c)[p] == (if TileAt(m, p) == 1 then 1.0 else c.weather) * CostField(m, c.(weather := 1.0))[p]
  {
    hide TerrainCost, Resolve, HazardFactor, TrafficFactor, Times, WellFormed, TileAt, CostField;
    var c1 := c.(weather := 1.0);
    var r := Resolve(c.dynamic);
    TerrainInWeather(m, c, p);
    Priced(m, c, p);
    Priced(m, c1, p);
    Regroup(TerrainCost(m, c1, p), HazardFactor(r, p), TrafficFactor(r, p), c.weather);
  }

  lemma Priced(m: Terrain, c: Costs, p: Point)
    requires WellFormed(m) && Shaped(c, m) && p in Enterables(m)
    ensures var r := Resolve(c.dynamic);
      CostField(m, c)[p] == Times(Times(TerrainCost(m, c, p), HazardFactor(r, p)), TrafficFactor(r, p))
  {
    hide TerrainCost, Resolve, HazardFactor, TrafficFactor, Times, WellFormed, TileAt, Shaped;
  }

  lemma TerrainInWeather(m: Terrain, c: Costs, p: Point)
    requires WellFormed(m) && Shaped(c, m) && Enterable(m, p)
    ensures TerrainCost(m, c, p) ==
      if TileAt(m, p) == 1 then TerrainCost(m, c.(weather := 1.0), p)
      else Times(TerrainCost(m, c.(weather := 1.0), p), c.weather)
  {
    hide WellFormed, TileAt;
    assert c.elevation == c.(weather := 1.0).elevation;
    assert forall x: real :: Times(x, 1.0) == x;
  }

  lemma Regroup(t: real, a: real, b: real, w: real)
    ensures Times(Times(Times(t, w), a), b) == w * Times(Times(t, a), b)
  {
    assert t * w * a == w * (t * a);
    assert w * (t * a) * b == w * (t * a * b);
  }

  const NO_LAYER := Layer(None, None, None)

  function LayerOf(layer: Option<Layer>): Layer {
    if layer.None? then NO_LAYER else layer.value
  }

  function PenaltiesOf(layer: Option<Layer>): map<Point, real> {
    if layer.None? || layer.value.byKey.None? then map[] else layer.value.byKey.value
  }

  /** Dynamic costs with one more tile in the traffic. */
  function Jammed(d: DynamicCosts, p: Point, v: real): DynamicCosts {
    d.(traffic := Some(LayerOf(d.traffic).(byKey := Some(PenaltiesOf(d.traffic)[p := v]))))
  }

  /** Listing a tile in the traffic multiplies its cost by the penalty, never by less than one, and
      leaves every other tile alone. */
  lemma TrafficMultiplies(m: Terrain, c: Costs, d: DynamicCosts, p: Point, v: real, q: Point)
    requires WellFormed(m) && Shaped(c, m) && c.dynamic == Some(d) && q in Enterables(m)
    requires p !in PenaltiesOf(d.traffic)
    ensures CostField(m, c.(dynamic := Some(Jammed(d, p, v))))[q] ==
      if q != p then CostField(m, c)[q] else if v < 1.0 then CostField(m, c)[q] else v * CostField(m, c)[q]
  {
    hide TerrainCost, Resolve, HazardFactor, TrafficFactor, Times, WellFormed, Shaped, CostField, PenaltiesOf, Jammed;
    var c' := c.(dynamic := Some(Jammed(d, p, v)));
    var r, r' := Resolve(c.dynamic), Resolve(c'.dynamic);
    SameTerrain(m, c, c', q);
    Priced(m, c, q);
    Priced(m, c', q);
    TrafficListed(d, p, v, q);
    OnlyOnce(Times(TerrainCost(m, c, q), HazardFactor(r, q)), v);
  }

  lemma TrafficListed(d: DynamicCosts, p: Point, v: real, q: Point)
    requires p !in PenaltiesOf(d.traffic)
    ensures var r, r' := Resolve(Some(d)), Resolve(Some(Jammed(d, p, v)));
      && HazardFactor(r', q) == HazardFactor(r, q) && TrafficFactor(r, p) == 1.0
      && TrafficFactor(r', q) == if q == p then AtLeastOne(v) else TrafficFactor(r, q)
  {
    var r, r' := Resolve(Some(d)), Resolve(Some(Jammed(d, p, v)));
    assert r' == r.(trafficByKey := PenaltiesOf(d.traffic)[p := v]) && r.trafficByKey == PenaltiesOf(d.traffic);
  }

  lemma SameTerrain(m: Terrain, c: Costs, c': Costs, p: Point)
    requires WellFormed(m) && Shaped(c, m) && Enterable(m, p) && c' == c.(dynamic := c'.dynamic)
    ensures Shaped(c', m) && TerrainCost(m, c', p) == TerrainCost(m, c, p)
  {
    hide WellFormed, TileAt, Times;
  }

  lemma OnlyOnce(cost: real, v: real)
    ensures Times(cost, 1.0) == cost && Times(cost, v) == v * cost
  {
  }

  /** Dynamic costs with one more tile among the nested hazards. */
  function Endangered(d: DynamicCosts, tiles: set<Point>, p: Point): DynamicCosts {
    d.(hazards := Some(LayerOf(d.hazards).(tiles := Some(tiles + {p}))))
  }

  /** What the caller charges for a hazard at p: its own penalty, or else the nested multiplier, or else
      the flat one. */
  function Penalty(d: DynamicCosts, p: Point): real {
    var layer := LayerOf(d.hazards);
    if layer.byKey.Some? && p in layer.byKey.value then layer.byKey.value[p]
    else if layer.multiplier.Some? then layer.multiplier.value
    else if d.multiplier.Some? then d.multiplier.value
    else 1.0
  }

  /** Listing a tile among the nested hazards multiplies its cost by its penalty, never by less than
      one, and leaves every other tile alone. */
  lemma HazardMultiplies(m: Terrain, c: Costs, d: DynamicCosts, tiles: set<Point>, p: Point, q: Point)
    requires WellFormed(m) && Shaped(c, m) && c.dynamic == Some(d) && q in Enterables(m)
    requires LayerOf(d.hazards).tiles == Some(tiles) && p !in tiles
    ensures CostField(m, c.(dynamic := Some(Endangered(d, tiles, p))))[q] ==
      if q != p || Penalty(d, p) < 1.0 then CostField(m, c)[q] else Penalty(d, p) * CostField(m, c)[q]
  {
    hide TerrainCost, Resolve, HazardFactor, TrafficFactor, Times, WellFormed, Shaped, CostField, Penalty, Endangered;
    var c' := c.(dynamic := Some(Endangered(d, tiles, p)));
    var r, r' := Resolve(c.dynamic), Resolve(c'.dynamic);
    SameTerrain(m, c, c', q);
    Priced(m, c, q);
    Priced(m, c', q);
    HazardListed(d, tiles, p, q);
    Exchange(TerrainCost(m, c, q), Penalty(d, p), TrafficFactor(r, q));
  }

  lemma HazardListed(d: DynamicCosts, tiles: set<Point>, p: Point, q: Point)
    requires LayerOf(d.hazards).tiles == Some(tiles) && p !in tiles
    ensures var r, r' := Resolve(Some(d)), Resolve(Some(Endangered(d, tiles, p)));
      && TrafficFactor(r', q) == TrafficFactor(r, q) && HazardFactor(r, p) == 1.0
      && HazardFactor(r', q) == if q == p then AtLeastOne(Penalty(d, p)) else HazardFactor(r, q)
  {
    var r, r' := Resolve(Some(d)), Resolve(Some(Endangered(d, tiles, p)));
    assert r' == r.(hazardTiles := tiles + {p}) && r.hazardTiles == tiles;
  }

  lemma Exchange(t: real, a: real, b: real)
    ensures Times(Times(t, a), b) == a * Times(Times(t, 1.0), b) && Times(t, 1.0) == t
  {
    assert t * a == a * t;
    assert a * t * b == a * (t * b);
  }

  /** Hazards without tiles cost nothing: the nested tiles decide where hazards are, and without them
      the flat ones; penalties for unlisted tiles are not looked at. */
  lemma UnlistedCostsNothing(m: Terrain, c: Costs, d: DynamicCosts, q: Point)
    requires WellFormed(m) && Shaped(c, m) && c.dynamic == Some(d) && q in Enterables(m)
    requires match LayerOf(d.hazards).tiles
             case Some(tiles) => q !in tiles
             case None => d.tiles.None? || q !in d.tiles.value
    ensures CostField(m, c)[q] == CostField(m, c.(dynamic := Some(DynamicCosts(None, d.traffic, None, None))))[q]
  {
    var c' := c.(dynamic := Some(DynamicCosts(None, d.traffic, None, None)));
    assert TerrainCost(m, c', q) == TerrainCost(m, c, q);
    hide TerrainCost;
  }

  /** Without nested tiles the flat ones are meant, and likewise the multiplier; given nested ones, the flat
      ones are not looked at. */
  lemma NestedWinsOverFlat(m: Terrain, c: Costs, d: DynamicCosts, tiles: Option<set<Point>>, multiplier: Option<real>)
    requires WellFormed(m) && Shaped(c, m) && c.dynamic == Some(d)
    ensures LayerOf(d.hazards).tiles.Some? ==>
      CostField(m, c) == CostField(m, c.(dynamic := Some(d.(tiles := tiles))))
    ensures LayerOf(d.hazards).multiplier.Some? ==>
      CostField(m, c) == CostField(m, c.(dynamic := Some(d.(multiplier := multiplier))))
    ensures LayerOf(d.hazards).tiles.None? ==>
      CostField(m, c) ==
        CostField(m, c.(dynamic := Some(d.(hazards := Some(LayerOf(d.hazards).(tiles := d.tiles)), tiles := None))))
  {
    SameResolution(m, c, Some(d.(tiles := tiles)));
    SameResolution(m, c, Some(d.(multiplier := multiplier)));
    SameResolution(m, c, Some(d.(hazards := Some(LayerOf(d.hazards).(tiles := d.tiles)), tiles := None)));
  }

  lemma SameResolution(m: Terrain, c: Costs, dynamic: Option<DynamicCosts>)
    requires WellFormed(m) && Shaped(c, m)
    ensures Resolve(c.dynamic) == Resolve(dynamic) ==> CostField(m, c) == CostField(m, c.(dynamic := dynamic))
  {
    var c' := c.(dynamic := dynamic);
    forall p | p in Enterables(m) ensures TerrainCost(m, c', p) == TerrainCost(m, c, p) {
      SameTerrain(m, c, c', p);
    }
    hide Resolve, TerrainCost, Times, HazardFactor, TrafficFactor, Shaped, WellFormed, Enterable;
  }

  /** No dynamic costs are the same as empty ones, and traffic alone that lists nothing is as good. */
  lemma EmptyCostsNothing(m: Terrain, c: Costs, traffic: Option<Layer>)
    requires WellFormed(m) && Shaped(c, m) && PenaltiesOf(traffic) == map[]
    ensures CostField(m, c.(dynamic := Some(DynamicCosts(None, traffic, None, None)))) ==
      CostField(m, c.(dynamic := None))
  {
    SameResolution(m, c.(dynamic := None), Some(DynamicCosts(None, traffic, None, None)));
  }
}
