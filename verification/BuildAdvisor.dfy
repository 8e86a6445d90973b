/** simulation/construction/build_advisor.py: resource arithmetic, cost tables and the preview. */
module BuildAdvisor {
  import opened Wrappers
  import opened Tiles

  /** Amounts of the three tracked resources; an absent key counts as zero. */
  datatype Resources = Resources(food: real, wood: real, stone: real)

  const NOTHING := Resources(0.0, 0.0, 0.0)

  /** The tracked keys. */
  datatype Res = Food | Wood | Stone

  function Get(r: Resources, key: Res): real {
    match key
    case Food => r.food
    case Wood => r.wood
    case Stone => r.stone
  }

  predicate NonNegative(a: Resources) {
    a.food >= 0.0 && a.wood >= 0.0 && a.stone >= 0.0
  }

  datatype Tool = Road | Farm | Lumber | Warehouse | Wall | Quarry | Bridge | Erase | UnknownTool(name: string)

  function ToolTile(tool: Tool): Option<int> {
    match tool
    case Road => Some(ROAD)
    case Farm => Some(FARM)
    case Lumber => Some(LUMBER)
    case Warehouse => Some(WAREHOUSE)
    case Wall => Some(WALL)
    case Quarry => Some(QUARRY)
    case Bridge => Some(BRIDGE)
    case Erase => None
    case UnknownTool(_) => None
  }

  function BuildCost(tool: Tool): (c: Resources)
    ensures NonNegative(c)
  {
    match tool
    case Road => Resources(0.0, 1.0, 0.0)
    case Farm => Resources(0.0, 3.0, 0.0)
    case Lumber => Resources(0.0, 2.0, 0.0)
    case Warehouse => Resources(0.0, 6.0, 2.0)
    case Wall => Resources(0.0, 2.0, 1.0)
    case Quarry => Resources(0.0, 3.0, 1.0)
    case Bridge => Resources(0.0, 4.0, 2.0)
    case Erase => NOTHING
    case UnknownTool(_) => NOTHING
  }

  /** The tool whose building a tile is: the first match in the table. */
  function BuilderOf(tile: int): Option<Tool> {
    if tile == ROAD then Some(Road)
    else if tile == FARM then Some(Farm)
    else if tile == LUMBER then Some(Lumber)
    else if tile == WAREHOUSE then Some(Warehouse)
    else if tile == WALL then Some(Wall)
    else if tile == QUARRY then Some(Quarry)
    else if tile == BRIDGE then Some(Bridge)
    else None
  }

  function Half(c: Resources): Resources {
    Resources(c.food * 0.5, c.wood * 0.5, c.stone * 0.5)
  }

  /** What demolishing a tile pays back: half of what building it costs. */
  function Salvage(tile: int): (r: Resources)
    ensures NonNegative(r)
  {
    match BuilderOf(tile)
    case None => NOTHING
    case Some(tool) => Half(BuildCost(tool))
  }

  lemma OnlyBuilder(tool: Tool, tile: int)
    requires ToolTile(tool) == Some(tile)
    ensures GRASS < tile <= BRIDGE && BuilderOf(tile) == Some(tool)
  {
  }

  lemma SalvageIsHalfTheCost(tool: Tool, tile: int)
    requires ToolTile(tool) == Some(tile)
    ensures GRASS < tile <= BRIDGE && Salvage(tile) == Half(BuildCost(tool))
  {
    OnlyBuilder(tool, tile);
    hide ToolTile, BuilderOf, BuildCost, Half;
  }

  predicate AllowedOn(tool: Tool, oldTile: int) {
    match tool
    case Road => oldTile == GRASS || oldTile == RUINS
    case Farm => oldTile == GRASS || oldTile == ROAD || oldTile == RUINS
    case Lumber => oldTile == GRASS || oldTile == ROAD || oldTile == RUINS
    case Warehouse => oldTile == GRASS || oldTile == ROAD || oldTile == RUINS
    case Wall => oldTile == GRASS || oldTile == ROAD || oldTile == RUINS
    case Quarry => oldTile == GRASS || oldTile == ROAD || oldTile == RUINS
    case Bridge => oldTile == WATER
    case Erase => false
    case UnknownTool(_) => false
  }

  // ---- resource operations: one pass over the keys, skipping non-positive amounts --------

  predicate CanAfford(r: Resources, cost: Resources) {
    && (cost.food <= 0.0 || r.food >= cost.food)
    && (cost.wood <= 0.0 || r.wood >= cost.wood)
    && (cost.stone <= 0.0 || r.stone >= cost.stone)
  }

  function SpendOne(have: real, need: real): real {
    if need <= 0.0 then have else if have - need < 0.0 then 0.0 else have - need
  }

  function Spend(r: Resources, cost: Resources): Resources {
    Resources(SpendOne(r.food, cost.food), SpendOne(r.wood, cost.wood), SpendOne(r.stone, cost.stone))
  }

  function RefundOne(have: real, amount: real): real {
    if amount <= 0.0 then have else have + amount
  }

  function Refund(r: Resources, amount: Resources): Resources {
    Resources(RefundOne(r.food, amount.food), RefundOne(r.wood, amount.wood), RefundOne(r.stone, amount.stone))
  }

  /** Spending what can be afforded never hits the floor at zero, so a refund undoes it. */
  lemma SpendThenRefund(r: Resources, cost: Resources)
    requires NonNegative(cost) && CanAfford(r, cost)
    ensures forall key :: Get(Spend(r, cost), key) == Get(r, key) - Get(cost, key)
    ensures Refund(Spend(r, cost), cost) == r
  {
  }

  lemma RefundAdds(r: Resources, amount: Resources)
    requires NonNegative(amount)
    ensures forall key :: Get(Refund(r, amount), key) == Get(r, key) + Get(amount, key)
  {
  }

  // ---- preview -------------------------------------------------------------------------

  datatype Reason = Fine | OutOfBounds | UnknownToolName | WrongTerrain | InsufficientResource
                  | AlreadyUnderConstruction | NotDemolishable | NoBlueprint | BlueprintLocked

  datatype Preview = Preview(reason: Reason, oldType: int, newType: int, cost: Resources, refund: Resources)

  function EvaluatePreview(m: Terrain, r: Resources, tool: Tool, p: Point): Preview
    requires WellFormed(m)
  {
    if !InBounds(p, m) then Preview(OutOfBounds, -1, -1, NOTHING, NOTHING)
    else
      var was := TileAt(m, p);
      if tool == Erase then
        Preview(Fine, was, if was == BRIDGE then WATER else GRASS, Resources(0.0, 1.0, 0.0), Salvage(was))
      else if ToolTile(tool).None? then Preview(UnknownToolName, was, -1, NOTHING, NOTHING)
      else if !AllowedOn(tool, was) then Preview(WrongTerrain, was, ToolTile(tool).value, BuildCost(tool), NOTHING)
      else if !CanAfford(r, BuildCost(tool)) then
        Preview(InsufficientResource, was, ToolTile(tool).value, BuildCost(tool), NOTHING)
      else Preview(Fine, was, ToolTile(tool).value, BuildCost(tool), NOTHING)
  }
}
