/** The resource ledger of blueprint-mode construction: what is in the stores, plus what is held in
    escrow by blueprints, plus the salvage value of everything standing, never grows. */
module Ledger {
  import opened Wrappers
  import opened Tiles
  import opened Sums
  import opened BuildAdvisor
  import opened Construction

  const FEE := Resources(0.0, 1.0, 0.0)

  /** What a blueprint over a tile looks like as long as the tile has not changed under it. */
  predicate FitsTile(o: Overlay, tile: int) {
    && o.original == tile && o.workTotal > 0.0
    && (o.kind == Build ==> FitsBuild(o))
    && (o.kind == Demolish ==> FitsDemolition(o, tile))
  }

  predicate FitsBuild(o: Overlay) {
    ToolTile(o.tool) == Some(o.target) && o.cost == BuildCost(o.tool) && o.refund == NOTHING
  }

  predicate FitsDemolition(o: Overlay, tile: int) {
    o.cost == FEE && o.refund == Salvage(tile) && o.target == if tile == BRIDGE then WATER else GRASS
  }

  ghost predicate ValidOverlays(c: Colony) {
    && WellFormed(c.m) && c.m.width > 0
    && forall k :: k in c.overlays ==> 0 <= k < |c.m.tiles| && FitsTile(c.overlays[k], c.m.tiles[k])
  }

  // ---- the potential ---------------------------------------------------------------

  /** Escrow and salvage value tied up in one cell, of one resource. */
  function CellValue(c: Colony, key: Res, k: nat): real
    requires k < |c.m.tiles|
  {
    (if k in c.overlays then Get(c.overlays[k].cost, key) else 0.0) + Get(Salvage(c.m.tiles[k]), key)
  }

  function CellValues(c: Colony, key: Res): (v: seq<real>)
    ensures |v| == |c.m.tiles|
  {
    seq(|c.m.tiles|, k requires 0 <= k < |c.m.tiles| => CellValue(c, key, k))
  }

  function Potential(c: Colony, key: Res): real {
    Get(c.resources, key) + Sum(CellValues(c, key))
  }

  ghost predicate SamePotential(c: Colony, d: Colony) {
    forall key :: Potential(d, key) == Potential(c, key)
  }

  ghost predicate NoMorePotential(c: Colony, d: Colony) {
    forall key :: Potential(d, key) <= Potential(c, key)
  }

  lemma {:induction false} SumUpdate(v: seq<real>, k: nat, x: real)
    requires k < |v|
    ensures Sum(v[k := x]) == Sum(v) + x - v[k]
  {
    var n := |v| - 1;
    if k == n {
      assert v[k := x][..n] == v[..n];
    } else {
      assert v[k := x][..n] == v[..n][k := x];
      SumUpdate(v[..n], k, x);
    }
  }

  /** All but possibly cell k have the same tile and the same escrow. */
  ghost predicate SameCellsExcept(c: Colony, d: Colony, k: int) {
    |c.m.tiles| == |d.m.tiles| && forall j :: 0 <= j < |c.m.tiles| && j != k ==> SameCell(c, d, j)
  }

  ghost predicate SameCell(c: Colony, d: Colony, j: nat)
    requires j < |c.m.tiles| == |d.m.tiles|
  {
    && c.m.tiles[j] == d.m.tiles[j] && (j in c.overlays <==> j in d.overlays)
    && (j in c.overlays ==> c.overlays[j].cost == d.overlays[j].cost)
  }

  lemma SameCellSameValue(c: Colony, d: Colony, key: Res, j: nat)
    requires j < |c.m.tiles| == |d.m.tiles| && SameCell(c, d, j)
    ensures CellValue(c, key, j) == CellValue(d, key, j)
  {
    hide Salvage, Get;
  }

  lemma OneCellChanges(c: Colony, d: Colony, key: Res, k: nat)
    requires SameCellsExcept(c, d, k) && k < |c.m.tiles|
    ensures Sum(CellValues(d, key)) == Sum(CellValues(c, key)) + CellValue(d, key, k) - CellValue(c, key, k)
  {
    hide CellValue, SameCell;
    SumUpdate(CellValues(c, key), k, CellValue(d, key, k));
    forall j | 0 <= j < |c.m.tiles| && j != k ensures CellValue(c, key, j) == CellValue(d, key, j) {
      SameCellSameValue(c, d, key, j);
    }
    assert CellValues(d, key) == CellValues(c, key)[k := CellValue(d, key, k)];
  }

  lemma NoCellChanges(c: Colony, d: Colony)
    requires SameCellsExcept(c, d, -1) && c.resources == d.resources
    ensures SamePotential(c, d)
  {
    hide CellValue, SameCell;
    forall key ensures Potential(d, key) == Potential(c, key) {
      forall j | 0 <= j < |c.m.tiles| ensures CellValue(c, key, j) == CellValue(d, key, j) {
        SameCellSameValue(c, d, key, j);
      }
      assert CellValues(d, key) == CellValues(c, key);
    }
  }

  // ---- each operation -----------------------------------------------------------------

  lemma NewOverlayFits(c: Colony, tool: Tool, p: Point)
    requires ValidOverlays(c) && EvaluatePreview(c.m, c.resources, tool, p).reason == Fine
    ensures InBounds(p, c.m) && 0 <= KeyOf(c, p) < |c.m.tiles|
    ensures FitsTile(NewOverlay(tool, EvaluatePreview(c.m, c.resources, tool, p)), c.m.tiles[KeyOf(c, p)])
    ensures NonNegative(NewOverlay(tool, EvaluatePreview(c.m, c.resources, tool, p)).cost)
  {
    PointOfIndexOfPoint(p, c.m);
  }

  /** A successful placement moves its cost from the stores into escrow, nothing else. */
  lemma WritingKeepsLedger(c: Colony, p: Point, o: Overlay)
    requires ValidOverlays(c) && 0 <= KeyOf(c, p) < |c.m.tiles| && KeyOf(c, p) !in c.overlays
    requires FitsTile(o, c.m.tiles[KeyOf(c, p)]) && NonNegative(o.cost) && CanAfford(c.resources, o.cost)
    ensures ValidOverlays(WriteBlueprint(c, p, o))
    ensures SamePotential(c, WriteBlueprint(c, p, o))
  {
    SpendThenRefund(c.resources, o.cost);
    hide Salvage, ToIndex, Sum, CellValues, Spend, CanAfford, Get, FitsTile;
    forall key ensures Potential(WriteBlueprint(c, p, o), key) == Potential(c, key) {
      OneCellChanges(c, WriteBlueprint(c, p, o), key, KeyOf(c, p));
    }
  }

  lemma CostsAreNonNegative(c: Colony, k: int)
    requires ValidOverlays(c) && k in c.overlays
    ensures NonNegative(c.overlays[k].cost) && NonNegative(c.overlays[k].refund)
  {
    assert FitsTile(c.overlays[k], c.m.tiles[k]);
  }

  lemma CancelKeepsLedger(c: Colony, p: Point)
    requires ValidOverlays(c)
    ensures ValidOverlays(CancelBlueprint(c, p).0) && SamePotential(c, CancelBlueprint(c, p).0)
    ensures !CancelBlueprint(c, p).1.ok ==> CancelBlueprint(c, p).0 == c
  {
    if OverlayAt(c, p).Some? && OverlayAt(c, p).value.cancelable {
      CostsAreNonNegative(c, KeyOf(c, p));
      RefundAdds(c.resources, OverlayAt(c, p).value.cost);
      hide Salvage, ToIndex, Sum, CellValues, Refund, FitsTile, Get;
      forall key ensures Potential(CancelBlueprint(c, p).0, key) == Potential(c, key) {
        OneCellChanges(c, CancelBlueprint(c, p).0, key, KeyOf(c, p));
      }
    }
  }

  /** Placing, or cancelling through the erase tool, keeps the potential exactly; a refused
      placement changes nothing at all. */
  lemma PlacementKeepsLedger(c: Colony, tool: Tool, p: Point)
    requires ValidOverlays(c)
    ensures ValidOverlays(PlaceToolAt(c, tool, p).0) && SamePotential(c, PlaceToolAt(c, tool, p).0)
    ensures !PlaceToolAt(c, tool, p).1.ok ==> PlaceToolAt(c, tool, p).0 == c
  {
    if tool == Erase && OverlayAt(c, p).Some? {
      CancelKeepsLedger(c, p);
    } else {
      var preview := EvaluatePreview(c.m, c.resources, tool, p);
      if preview.reason == Fine && Refusal(c, tool, p, preview) == Fine {
        NewOverlayFits(c, tool, p);
        WritingKeepsLedger(c, p, NewOverlay(tool, preview));
      }
    }
  }

  /** The same blueprint, but for the work done on it and its builder. */
  predicate SameContract(o: Overlay, o': Overlay) {
    o' == o.(workApplied := o'.workApplied, builder := o'.builder)
  }

  /** An operation that changes only work and builders leaves the ledger alone. */
  ghost predicate SameLedger(c: Colony, d: Colony) {
    && d.m == c.m && d.resources == c.resources && d.overlays.Keys == c.overlays.Keys
    && forall k :: k in c.overlays ==> SameContract(c.overlays[k], d.overlays[k])
  }

  lemma SameLedgerKeepsPotential(c: Colony, d: Colony)
    requires ValidOverlays(c) && SameLedger(c, d)
    ensures ValidOverlays(d) && SamePotential(c, d)
  {
    forall k | k in c.overlays
      ensures d.overlays[k].cost == c.overlays[k].cost && FitsTile(d.overlays[k], c.m.tiles[k])
    {
    }
    NoCellChanges(c, d);
  }

  lemma WorkKeepsLedger(c: Colony, p: Point, dt: real)
    ensures SameLedger(c, ApplyWork(c, p, dt))
  {
  }

  lemma ReserveKeepsLedger(c: Colony, w: Option<WorkerId>, i: nat)
    requires i < |c.sites|
    ensures SameLedger(c, Reserve(c, w, i))
  {
  }

  lemma {:induction false} ReleaseKeepsLedger(c: Colony, w: Option<WorkerId>, n: nat)
    requires n <= |c.sites|
    ensures SameLedger(c, Release(c, w, n))
  {
    if n > 0 { ReleaseKeepsLedger(c, w, n - 1); }
  }

  /** Completing a blueprint never raises the potential: a building is worth half of what it cost,
      and the demolition fee is lost. */
  lemma VisitLowersLedger(c: Colony, i: nat, alive: set<WorkerId>)
    requires ValidOverlays(c) && i < |c.sites| && InBounds(c.sites[i].p, c.m)
    ensures ValidOverlays(Visit(c, i, alive)) && NoMorePotential(c, Visit(c, i, alive))
  {
    var p, d := c.sites[i].p, Visit(c, i, alive);
    PointOfIndexOfPoint(p, c.m);
    var k := KeyOf(c, p);
    VisitKeepsOverlays(c, i, alive);
    if OverlayAt(c, p).Some? {
      VisitChangesOneCell(c, i, alive);
      forall key ensures Potential(d, key) <= Potential(c, key) {
        OneCellChanges(c, d, key, k);
        CompletionLowersCell(c, d, key, k, OverlayAt(c, p).value, alive);
      }
    } else {
      NoCellChanges(c, d);
    }
    hide CellValue, CellValues, Sum, Visit, ToIndex;
  }

  lemma VisitKeepsOverlays(c: Colony, i: nat, alive: set<WorkerId>)
    requires ValidOverlays(c) && i < |c.sites| && InBounds(c.sites[i].p, c.m)
    ensures ValidOverlays(Visit(c, i, alive))
  {
    PointOfIndexOfPoint(c.sites[i].p, c.m);
    hide Salvage, BuildCost, ToIndex;
  }

  lemma VisitChangesOneCell(c: Colony, i: nat, alive: set<WorkerId>)
    requires ValidOverlays(c) && i < |c.sites| && InBounds(c.sites[i].p, c.m) && OverlayAt(c, c.sites[i].p).Some?
    ensures SameCellsExcept(c, Visit(c, i, alive), KeyOf(c, c.sites[i].p))
  {
    PointOfIndexOfPoint(c.sites[i].p, c.m);
    hide Salvage, ToIndex;
  }

  /** The cell and the stores before and after a completion or a mere check of the builder. */
  ghost predicate Completes(c: Colony, d: Colony, k: nat, o: Overlay, alive: set<WorkerId>) {
    && k < |c.m.tiles| == |d.m.tiles| && k in c.overlays && c.overlays[k] == o && FitsTile(o, c.m.tiles[k])
    && if Done(o) then
         && k !in d.overlays && d.m.tiles[k] == o.target % 256
         && d.resources == if o.kind == Demolish then Refund(c.resources, o.refund) else c.resources
       else
         d.m == c.m && d.resources == c.resources && k in d.overlays && d.overlays[k] == Checked(o, alive)
  }

  /** The cell and the stores, of one resource, before and after; only these numbers matter. */
  lemma CompletionLowersCell(c: Colony, d: Colony, key: Res, k: nat, o: Overlay, alive: set<WorkerId>)
    requires Completes(c, d, k, o, alive)
    ensures Get(d.resources, key) + CellValue(d, key, k) <= Get(c.resources, key) + CellValue(c, key, k)
  {
    if !Done(o) {
      hide Salvage, Get;
    } else if o.kind == Build {
      BuildingCell(c, d, key, k, o, alive);
      hide CellValue, Get, Completes, Done;
    } else {
      DemolishingCell(c, d, key, k, o, alive);
      hide CellValue, Get, Completes, Done;
    }
  }

  lemma BuildingCell(c: Colony, d: Colony, key: Res, k: nat, o: Overlay, alive: set<WorkerId>)
    requires Completes(c, d, k, o, alive) && Done(o) && o.kind == Build
    ensures d.resources == c.resources
    ensures CellValue(d, key, k) == 0.5 * Get(o.cost, key)
    ensures CellValue(c, key, k) >= Get(o.cost, key) >= 0.0
  {
    BuildTarget(o, c.m.tiles[k], key);
    NotNegative(Salvage(c.m.tiles[k]), key);
    hide Salvage, FitsTile, Get;
  }

  lemma BuildTarget(o: Overlay, tile: int, key: Res)
    requires FitsTile(o, tile) && o.kind == Build
    ensures o.target % 256 == o.target
    ensures Get(Salvage(o.target), key) == 0.5 * Get(o.cost, key)
    ensures Get(o.cost, key) >= 0.0
  {
    hide FitsDemolition, Salvage, Get, BuildCost;
    assert ToolTile(o.tool) == Some(o.target);
    BuildingPaysHalfBack(o.tool, o.target, o.cost, key);
  }

  lemma BuildingPaysHalfBack(tool: Tool, tile: int, cost: Resources, key: Res)
    requires ToolTile(tool) == Some(tile) && cost == BuildCost(tool)
    ensures 0 <= tile < 256 && Get(Salvage(tile), key) == 0.5 * Get(cost, key)
    ensures Get(cost, key) >= 0.0
  {
    hide ToolTile, Salvage, BuildCost, Half, Get;
    SalvageIsHalfTheCost(tool, tile);
    HalfOf(cost, key);
    NotNegative(cost, key);
  }

  lemma HalfOf(r: Resources, key: Res)
    ensures Get(Half(r), key) == 0.5 * Get(r, key)
  {
  }

  lemma NotNegative(r: Resources, key: Res)
    requires NonNegative(r)
    ensures Get(r, key) >= 0.0
  {
  }

  lemma DemolishingCell(c: Colony, d: Colony, key: Res, k: nat, o: Overlay, alive: set<WorkerId>)
    requires Completes(c, d, k, o, alive) && Done(o) && o.kind == Demolish
    ensures Get(d.resources, key) == Get(c.resources, key) + Get(o.refund, key)
    ensures CellValue(d, key, k) == 0.0
    ensures CellValue(c, key, k) >= Get(o.refund, key)
  {
    DemolishTarget(o, c.m.tiles[k], key);
    RefundAdds(c.resources, o.refund);
    hide Salvage, Refund, FitsTile, Get;
  }

  lemma DemolishTarget(o: Overlay, tile: int, key: Res)
    requires FitsTile(o, tile) && o.kind == Demolish
    ensures o.target % 256 == o.target && NonNegative(o.refund) && o.refund == Salvage(tile)
    ensures Get(Salvage(o.target), key) == 0.0
    ensures Get(o.cost, key) >= 0.0
  {
    NothingLeft(o.target, key);
    NotNegative(o.cost, key);
    hide Salvage, Get, FitsBuild;
  }

  lemma NothingLeft(t: int, key: Res)
    requires t == WATER || t == GRASS
    ensures Get(Salvage(t), key) == 0.0
  {
  }
}
