# Project Utopia: navigation, construction, events and scoring kernels in Dafny

This project models the deterministic core of the Project Utopia colony simulation and proves what
that core is for. Run `dafny verify dfyconfig.toml` in this directory.

- **Navigation.** A lazy-deletion A* over a versioned tile grid (`Tiles`, `Routes`, `StepCosts`,
  `LazyHeap`, `AStar`, `Grid`), the LRU path cache in front of it (`PathCache`, `LruInclusion`), the
  client that binds paths to entities (`Navigation`), and the road network on a union-find
  (`UnionFind`, `RoadGraph`, `RoadNetwork`).
- **Construction.** Blueprints paid into escrow, a site list mirroring the overlays, the reverse
  completion walk with salvage, and the dependency-driven plan executor. `Construction` and `PlanSteps`
  are the state machines on values; `BuildSystem` and `PlanExecutor` are the objects that update their
  fields in place, proved to do what the state machines do; `Ledger`, `SiteMirror`, `Builders`,
  `ConstructionRuns`, `BlueprintLife` and `PlanOutcomes` hold the invariants over whole runs. The `Colony` log is ghost-like history: it
  records the blueprint events that the source puts on its event bus, and only proofs look at it.
- **World events.** The queue with per-type caps and the pressure rewritten at every tick
  (`WorldEvents`).
- **Benchmark kernels.** Gini, Pearson, the PVB correction, HELM win rates (`Sums`, `Rounding`, `Gini`,
  `Pearson`, `Pvb`, `WinRates`) and the spatial hash against brute force (`SpatialHash`, `NeighborQuery`).

Floating-point numbers are exact reals. Where the source rounds to decimals as part of the behaviour
(event pressures, value estimates, reported scores and win rates) the rounding is modelled, half to
even. `math.sqrt` and `sorted` in the
correlation kernel are parameters, used only as a root of non-negative numbers and as some listing of
a set. String keys `"x,z"` of the dynamic costs are modelled as points, and a heap as the set of its
entries, whose insertion counters differ.

## Where the code departs from its own words

The model follows the code.

- `a_star.py:47-49` calls the Manhattan heuristic admissible. Road and bridge cost 0.65, so it is not;
  `Routes.HeuristicAdmissibleIff` says exactly when it is, `StepCosts.HeuristicOverestimates` shows a
  map where it is not. What the search guarantees in general is
  stated against the costs floored at one, which gives the factor 20/13.
- `events.py:272-277` drops events in cooldown, but nothing ever sets that status: a resolved event
  keeps its place, and a kind whose cap is full activates nothing more (`WorldEvents.ActiveAreTheFirst`).
- `events.py:384-423` promises to multiply contested pressure; the code adds 0.12 per overlap.
  `WorldEvents.AddingIsMultiplyingIff` says when the two agree, `AddingIsNotMultiplying` shows a raid for
  which they do not. It also promises to count events, but counts how often a tile is named
  (`OverlapCountsEventsIff`), and a raid names its own tile twice (`LoneRaidContestsItself`).
  `TickKeepsBaseIff` and `LoneEventKeepsBaseIff` say exactly when a pressure is inflated,
  `LastContestedDecides` by how much.
- `plan_executor.py:126-139` takes a missing site for a finished one, so a cancelled blueprint counts as a
  completed step. `PlanOutcomes.CompleteCarriedOutIff` says exactly when a complete step was carried
  out; `PlanOutcomes.CompleteButCancelled` is a run in which it was not.
- Overlays are kept under flat indices, and `get_construction_overlay` checks no bounds: off the map an
  index aliases another tile. Cancelling, erasing and working there reach that tile's blueprint but not
  its site (`SiteMirror.CancelKeepsMirrorIff`, `PlacementKeepsMirrorIff`, `WorkKeepsMirrorIff`, with
  inputs in `AliasingBreaksMirror`). The ledger does not mind; the mirror holds over exactly the runs
  without such steps (`ConstructionRuns.RunKeepsSitesIff`).
- Road queries take flat indices in the same way: off the map they answer for the aliased cell
  (`RoadGraph.ConnectedIffAliasesAre`, with an input in `RoadGraph.OffMapConnects`).
- The periodic rebuild in `construction_system.py` never has work to do, on the map or off it
  (`ConstructionRuns.RunNeverRebuilds`).
- `grid.py:262-263` says that every tile mutation bumps the version. A store into the tile array does not:
  until the next bump or effective write, paths stay active and road queries may answer as if it had not
  happened (`Navigation.PokeUnseen`). `Navigation.PerformAll` and `RoadNetwork.PerformAll` hold for every
  interleaving of such stores, writes and bumps, whenever no store is pending.
- `spatial_hash.py` sorts its answer so that the order of insertion never shows. It shows when a limit
  falls inside a cell, because sorting comes after cutting, and when two hits have the same id and place
  (`NeighborQuery.OrderProofIff`, with inputs in `NeighborQuery.OrderLeaks`). A limit below one acts as one.
- `pvb.py` describes its correction as variance reduction that cancels when the played policy is the
  fallback one; it telescopes and vanishes for every run (`Pvb.CorrectionVanishes`).

## Model

| member | source | states |
|---|---|---|
| AStar.Search | project_utopia/simulation/navigation/a_star.py:108-256 | for every map, cost input, pair of endpoints and node budget: a returned path is a simple route over enterable tiles no longer than the budget, its cost is at most that of any route whose cheap steps are charged as one; with weather at least 1 and no negative height that is at most 20/13 of any route, and a cheapest route on a map without road or bridge; no path comes back only when an endpoint is off the map, no route exists, or the budget is below the number of cells |
| AStar.PoppedLabelIsBounded | project_utopia/simulation/navigation/a_star.py:195-254 | why nothing is reopened: the open node with the least f-score is already within the bound of every route to it, so every closed label stays within it although the heuristic overestimates |
| AStar.BoundIsWorth | project_utopia/simulation/navigation/a_star.py:195-254 | why: no step is cheaper than 0.65, so the floored bound is within 20/13 of any route, and without roads flooring changes nothing |
| AStar.GoalWasUnreachable | project_utopia/simulation/navigation/a_star.py:194-256 | an empty heap with the goal not closed means no route leads to the goal |
| AStar.Expand | project_utopia/simulation/navigation/a_star.py:210-254 | the neighbour loop keeps the whole search invariant and leaves the expanded node relaxed towards all its neighbours |
| AStar.LeastIsFrontmost | project_utopia/simulation/navigation/a_star.py:195-199 | the least heap entry of a node not yet closed carries that node's current score and is frontmost among all open nodes |
| AStar.ChainIsRoute | project_utopia/simulation/navigation/a_star.py:52-66 | the parent chain of a closed node is a simple route from the start whose summed step costs equal the node's g-score |
| AStar.ReconstructPath | project_utopia/simulation/navigation/a_star.py:52-66 | the loop over the parents computes that chain |
| LazyHeap.HeapPop | project_utopia/simulation/navigation/a_star.py:195 | a pop removes the entry least by f-score and then by insertion counter |
| LazyHeap.PushRefinesDecreaseKey | project_utopia/simulation/navigation/a_star.py:248-254 | a plain push refines insert-or-decrease-key on a queue with one entry per node |
| LazyHeap.PopRefinesExtractMin | project_utopia/simulation/navigation/a_star.py:194-198 | a pop of an open node is the queue's minimum with its current key; stale entries surface only after their node is closed |
| Routes.HeuristicAdmissibleIff | project_utopia/simulation/navigation/a_star.py:47-49 | the Manhattan heuristic is admissible if and only if no tile that can be entered from a neighbouring cell costs less than 1 |
| StepCosts.HeuristicOverestimates | project_utopia/simulation/navigation/a_star.py:47-49 | a map of two road tiles on which it is not |
| Routes.ManhattanBoundsSuffix | project_utopia/simulation/navigation/a_star.py:47-49 | when every step costs at least 1 the heuristic bounds what is left of a route from any point of it |
| Routes.FlooringInflatesAtMost | project_utopia/simulation/navigation/a_star.py:225-245 | charging cheap steps as one inflates a route by at most the inverse of the cheapest step |
| StepCosts.EveryStepCostsARoad | project_utopia/world/grid.py:84-97 | with weather at least 1 and no negative height, no step on any map is cheaper than a road tile, whatever the hazards and the traffic |
| StepCosts.WithoutRoadsEveryStepCostsOne | project_utopia/world/grid.py:84-97 | without roads and bridges no step costs less than 1 |
| StepCosts.EnterableIff | project_utopia/world/grid.py:84-97 | which tiles a search may enter, by id |
| StepCosts.PlainStep | project_utopia/world/grid.py:84-97 | what each tile costs in any weather on flat ground, by id: weather scales everything but road |
| StepCosts.HeightAdds | project_utopia/simulation/navigation/a_star.py:225-232 | a height, read by row or by flat index with 0.5 past the end, adds 0.4 of itself before the weather |
| StepCosts.WeatherScales | project_utopia/simulation/navigation/a_star.py:233-235 | with any heights, hazards and traffic, weather scales every tile but road |
| StepCosts.TrafficMultiplies | project_utopia/simulation/navigation/a_star.py:237-245 | listing a tile in the traffic multiplies its cost by the penalty, never by less than one, and leaves every other tile alone |
| StepCosts.HazardMultiplies | project_utopia/simulation/navigation/a_star.py:69-105 | listing a tile among the nested hazards multiplies its cost by its own penalty, or else the nested multiplier, or else the flat one, never by less than one, and leaves every other tile alone |
| StepCosts.UnlistedCostsNothing | project_utopia/simulation/navigation/a_star.py:69-105 | hazard penalties are not looked at where no hazard is listed |
| StepCosts.NestedWinsOverFlat | project_utopia/simulation/navigation/a_star.py:69-105 | nested tiles and multiplier win over flat ones; flat tiles without nested ones mean the same as nested |
| StepCosts.EmptyCostsNothing | project_utopia/simulation/navigation/a_star.py:69-105 | without hazards and traffic the dynamic costs change nothing |
| StepCosts.DynamicCostsNeverSpeedUp | project_utopia/simulation/navigation/a_star.py:69-105 | hazards and traffic, nested or flat, never make a step cheaper; a step whose cost is negative already, which odd weather or heights allow, they never make dearer |
| UnionFind.UnionFind.Find | project_utopia/simulation/navigation/road_network.py:34-43 | returns the root, keeps every class while it compresses, and walks at most log2(n) links |
| UnionFind.UnionFind.Union | project_utopia/simulation/navigation/road_network.py:45-60 | merges exactly the two classes, reports whether they differed, and keeps ranks and sizes true |
| UnionFind.UnionFind.Connected | project_utopia/simulation/navigation/road_network.py:62-63 | true exactly when the two elements are in one class |
| UnionFind.UnionFind.ComponentSize | project_utopia/simulation/navigation/road_network.py:65-66 | the size kept at the root is the number of elements of the class |
| UnionFind.FindIsLogarithmic | project_utopia/simulation/navigation/road_network.py:34-60 | two to the number of links above an element is at most the number of elements |
| UnionFind.DepthBelowRank | project_utopia/simulation/navigation/road_network.py:45-60 | ranks strictly grow along parents, so the rank at the root bounds the number of links |
| UnionFind.CompressionKeepsRoots | project_utopia/simulation/navigation/road_network.py:38-42 | pointing an element straight at its root changes no class |
| UnionFind.HangingMergesClasses | project_utopia/simulation/navigation/road_network.py:45-60 | hanging a root below another of no smaller rank merges the two classes and nothing else |
| RoadGraph.CarrierPointsAre | project_utopia/simulation/navigation/road_network.py:17-19 | road, warehouse and bridge carry traffic, by id |
| RoadGraph.SameRootIffJoined | project_utopia/simulation/navigation/road_network.py:89-126 | a sound and complete partition puts two carriers under one root exactly when a 4-connected chain of carriers joins them |
| RoadGraph.RootsCountComponents | project_utopia/simulation/navigation/road_network.py:119-126 | the number of distinct roots is the number of connected components |
| RoadGraph.ClassIsComponent | project_utopia/simulation/navigation/road_network.py:175-181 | the class of a carrier is its connected component |
| RoadGraph.ChainIsRouteOfPoints | project_utopia/simulation/navigation/road_network.py:89-117 | a chain of indices is a 4-connected route of coordinates, so no index wraps round a row |
| RoadGraph.RouteIsChain | project_utopia/simulation/navigation/road_network.py:89-117 | and a route over carrier tiles is such a chain |
| RoadGraph.ConnectedIffRoute | project_utopia/simulation/navigation/road_network.py:130-144 | on the map, two cells are connected exactly when a route over carrier tiles leads from one to the other |
| RoadGraph.ConnectedIffAliasesAre | project_utopia/simulation/navigation/road_network.py:130-144 | anywhere, they are connected exactly when the cells on the map with their flat indices exist and are |
| RoadGraph.OffMapConnects | project_utopia/simulation/navigation/road_network.py:130-144 | so a cell left of the map is connected to a road on it: on a map two cells wide (-1, 1) has the flat index of (1, 0) |
| RoadNetwork.RoadNetwork.UniteCell | project_utopia/simulation/navigation/road_network.py:103-117 | uniting a carrier with its already seen neighbours completes the partition up to that cell |
| RoadNetwork.RoadNetwork.Scan | project_utopia/simulation/navigation/road_network.py:89-117 | the row-major scan, which looks only at seen neighbours, yields the complete partition, all carriers and the warehouses in order |
| RoadNetwork.RoadNetwork.Rebuild | project_utopia/simulation/navigation/road_network.py:89-126 | afterwards every field reflects the map that was seen, the current one if its version is clean, that is if no tile was stored behind the grid since the version moved; nothing is recomputed while the version stands |
| RoadNetwork.RoadNetwork.AreConnected | project_utopia/simulation/navigation/road_network.py:130-144 | true exactly when a chain of road, bridge and warehouse tiles joins the two cells on the map that was seen, the current one if its version is clean; for cells on the map, when a route over such tiles does; the union-find afterwards is the old one or a fresh one |
| RoadNetwork.RoadNetwork.ConnectedWarehouse | project_utopia/simulation/navigation/road_network.py:146-156 | the least warehouse index joined to the cell, -1 when there is none |
| RoadNetwork.RoadNetwork.ComponentSize | project_utopia/simulation/navigation/road_network.py:175-181 | the size of the connected component, 0 off the network |
| RoadNetwork.Perform | project_utopia/simulation/navigation/road_network.py:89-181 | any one write, store behind the grid, version bump or query changes the map as it should, answers rightly if the version is clean and leaves network and grid fit for the next |
| RoadNetwork.PerformAll | project_utopia/simulation/navigation/road_network.py:89-181 | however writes, stores behind the grid, version bumps and queries interleave, every query whose turn comes with a clean version answers for the map as it is then |
| Grids.Grid.SetTile | project_utopia/world/grid.py:304-323 | the version moves exactly on an effective write, so writes alone never let a version stand for two maps; the tile is stored modulo 256 |
| Grids.Grid.BumpVersion | project_utopia/world/grid.py:265-272 | after whatever edits bypassed the grid, the version grows by one and the new one is clean: it stands for the map as it is |
| Grids.Grid.PokeTile | project_utopia/world/scenarios.py:285-304 | a store into the tile array itself moves no version; if it changes a tile the current version is no longer clean |
| Grids.Grid.Apply | project_utopia/world/grid.py:265-323 | any write, store or bump leaves the map and its cleanness as specified and forgets no version |
| Tiles.PointOfIndexOfPoint | project_utopia/world/grid.py:139-146 | on the map, coordinate to flat index and back is the identity |
| Tiles.IndexOfPointOfIndex | project_utopia/world/grid.py:139-146 | flat index to coordinate and back is the identity |
| PathCache.PathCache.Lookup | project_utopia/simulation/navigation/path_cache.py:66-78 | returns what is filed under the key and makes it the newest entry; counts one hit or one miss |
| PathCache.PathCache.RecordResult | project_utopia/simulation/navigation/path_cache.py:80-91 | refreshes a known key in place, otherwise adds the newest entry and evicts the oldest beyond the bound; counts evictions exactly |
| PathCache.PathCache.InvalidateGridVersion | project_utopia/simulation/navigation/path_cache.py:120-131 | drops exactly the entries of older versions, keeps the order of the rest, and counts what it dropped |
| LruInclusion.StepKeepsInclusion | project_utopia/simulation/navigation/path_cache.py:66-131 | one access, invalidation or clear keeps the smaller cache the newest end of the larger one |
| LruInclusion.LargerCacheNeverHitsLess | project_utopia/simulation/navigation/path_cache.py:66-131 | over any trace the smaller cache is the newest end of the larger, both stay within their bounds, and hits never fall as the bound grows |
| Navigation.SetTargetAndPath | project_utopia/simulation/navigation/navigation_system.py:54-118 | a bound path is active and, under a clean version, a route from the entity to its target on the current tiles; it fails only when an endpoint is off the map, no route exists or the budget is too small. An entity at its target stays there and touches no cache. Otherwise a hit under faction, grid version, cost version and both ends is bound and becomes the newest entry; a miss is searched under the given costs, bound with all that a search promises, and filed; nothing found, nothing filed. Hits and misses are counted |
| Navigation.TileIsItsSquare | project_utopia/world/grid.py:149-158 | a world position is on a tile exactly when it lies in its square, with the origin in the middle of the map |
| Navigation.TileOfCentre | project_utopia/world/grid.py:149-166 | the centre of a tile is on it: the two conversions undo each other |
| Navigation.ActivePathIsWalkableNow | project_utopia/simulation/navigation/navigation_system.py:43-51 | under a clean version an active path is walkable on the current tiles |
| Navigation.CurrentHitIsRouteNow | project_utopia/simulation/navigation/path_cache.py:66-78 | a hit under a current, clean version is a route from start to goal on the current tiles, even if step costs have moved |
| Navigation.CurrentHitIsWorthTaking | project_utopia/simulation/navigation/path_cache.py:66-78 | and if searches honour a tariff, one set of costs per cost version, it is what a search under the costs of its cost version promises: no stale price is ever taken |
| Navigation.GrowthKeepsAll | project_utopia/world/grid.py:265-323 | what was vouched for under a clean version stays so when versions are added or others lose it |
| Navigation.PerformAll | project_utopia/simulation/navigation/navigation_system.py:43-118 | both of these hold after any interleaving of writes, stores behind the grid, version bumps, searches, moves and invalidations that ends with a clean version; and searches that honour a tariff leave a cache that does |
| Navigation.PokeUnseen | project_utopia/world/grid.py:265-272 | without the bump they do not: a path stays active and leads into a wall |
| BuildAdvisor.SpendThenRefund | project_utopia/simulation/construction/build_advisor.py:78-102 | spending an affordable cost never meets the floor at zero, so a refund undoes it |
| BuildAdvisor.SalvageIsHalfTheCost | project_utopia/simulation/construction/build_advisor.py:37-60 | demolishing a structure pays half of what its tool costs, for every building tool |
| Ledger.WritingKeepsLedger | project_utopia/simulation/construction/build_system.py:171-316 | writing a blueprint moves its cost from the stores into escrow: stores plus escrow plus half the cost of all structures is kept exactly |
| Ledger.PlacementKeepsLedger | project_utopia/simulation/construction/build_system.py:83-316 | every placement keeps that sum exactly, and a refused one changes nothing at all |
| Ledger.CancelKeepsLedger | project_utopia/simulation/construction/build_system.py:318-372 | so does every cancellation |
| Ledger.VisitLowersLedger | project_utopia/simulation/construction/construction_system.py:54-150 | a completion never raises the sum |
| SiteMirror.MirrorIsRebuild | project_utopia/simulation/construction/construction_sites.py:135-160 | under the invariant the site list is, up to order, what a rebuild from the overlays gives |
| SiteMirror.PlacementKeepsMirrorIff | project_utopia/simulation/construction/build_system.py:83-316 | a placement keeps one site per overlay, one site per tile and at most one site per worker if and only if it is not an erase off the map whose flat index is that of a cancelable blueprint |
| SiteMirror.CancelKeepsMirrorIff | project_utopia/simulation/construction/build_system.py:318-372 | a cancellation keeps the mirror if and only if no overlay has that flat index, it cannot be cancelled, or the tile is on the map |
| SiteMirror.PlaceThenCancelRestores | project_utopia/simulation/construction/build_system.py:171-372 | a placed blueprint cancelled again restores resources, overlays, tiles and the site list |
| SiteMirror.WorkKeepsMirrorIff | project_utopia/simulation/construction/construction_sites.py:163-180 | work is written to the overlay and to its site alike, and keeps the mirror, unless the tile is off the map, an overlay has its flat index, and the work done changes |
| SiteMirror.AliasingBreaksMirror | project_utopia/simulation/construction/construction_sites.py:89-118 | both failures happen: on a map two cells wide, (-1, 1) has the flat index of (1, 0) |
| SiteMirror.ReserveKeepsMirror | project_utopia/simulation/construction/construction_sites.py:183-220 | reserving gives no worker a second site |
| SiteMirror.ReleaseKeepsMirror | project_utopia/simulation/construction/construction_sites.py:223-235 | releasing keeps the mirror |
| SiteMirror.WalkSettles | project_utopia/simulation/construction/construction_system.py:54-150 | the reverse walk with pops settles exactly the tiles of the sites it visits, each independently |
| SiteMirror.UpdateSettlesAll | project_utopia/simulation/construction/construction_system.py:38-152 | a tick turns every finished blueprint into its tile and touches no other tile or overlay |
| SiteMirror.WalkPaysOut | project_utopia/simulation/construction/construction_system.py:82-140 | in a tick the stores grow by the salvage of the demolitions finished in it and by nothing else |
| SiteMirror.UpdateKeepsMirror | project_utopia/simulation/construction/construction_system.py:38-152 | a tick keeps the mirror |
| SiteMirror.UpdateIsWalk | project_utopia/simulation/construction/construction_system.py:38-152 | while every overlay has a site, a tick is the reverse walk and the periodic rebuild has nothing to do |
| ConstructionRuns.RunKeepsLedger | project_utopia/simulation/construction/build_system.py:83-372 | over any run of placements, cancellations, work, reservations and ticks, on the map or off it: stores plus escrow plus salvage value never grow in any resource |
| ConstructionRuns.StepKeepsLedger | project_utopia/simulation/construction/build_system.py:83-372 | any operation but a tick keeps that sum exactly |
| ConstructionRuns.RunKeepsSitesIff | project_utopia/simulation/construction/construction_sites.py:64-235 | the mirror, one site per tile and one site per worker hold after every step of a run if and only if no step reaches a blueprint from off the map |
| ConstructionRuns.RunKeepsSites | project_utopia/simulation/construction/construction_sites.py:135-160 | then the site list at the end is, up to order, what a rebuild gives |
| ConstructionRuns.RunsOnMapKeepSites | project_utopia/simulation/construction/construction_sites.py:64-235 | a run whose erasures, cancellations and work name tiles on the map needs no other precaution |
| ConstructionRuns.StepStaysCovered | project_utopia/simulation/construction/construction_sites.py:64-235 | every operation, on the map or off it, leaves every overlay a site |
| ConstructionRuns.RunNeverRebuilds | project_utopia/simulation/construction/construction_system.py:142-150 | so after any run at all a tick is the reverse walk and nothing more: the periodic rebuild is dead code |
| ConstructionRuns.NoProfit | project_utopia/simulation/construction/build_system.py:83-372 | any run that comes back to the same tiles with nothing in escrow leaves no more in the stores than there was |
| ConstructionRuns.RunKeepsLog | project_utopia/simulation/construction/construction_system.py:82-150 | over such runs the tiles are the first tiles with the finished blueprints applied in order; at each tile announcements and endings take turns, and the last word is what the overlays say |
| BlueprintLife.AcceptedIff | project_utopia/simulation/construction/build_system.py:83-107 | a placement is accepted exactly on the map, where no blueprint stands, on a tile the tool has a use for, with the wood and stone for it in store; the whole table is in the contract, by tile id |
| BlueprintLife.AcceptedEffect | project_utopia/simulation/construction/build_system.py:171-316 | then exactly its price leaves the stores, the tile has a fresh blueprint with the seconds it takes, the site list a site, and the log an announcement |
| BlueprintLife.RefusedEffect | project_utopia/simulation/construction/build_advisor.py:120-224 | otherwise, unless it erases a blueprint, nothing changes and the first thing wrong is the reason |
| BlueprintLife.SalvageIsHalfPrice | project_utopia/simulation/construction/build_advisor.py:155-176 | demolition pays back half of what building takes |
| BlueprintLife.WorkAddsUp | project_utopia/simulation/construction/construction_sites.py:163-180 | over any run without aliasing, a blueprint that still stands has had exactly the work given to its tile since it was announced, in seconds; negative times count as none |
| BlueprintLife.FinishedIffWorked | project_utopia/simulation/construction/construction_system.py:54-150 | after any such run the next tick finishes a standing blueprint if and only if that work comes to the seconds it takes; otherwise nothing is recorded about it and it stands |
| BlueprintLife.FinishedWasWorked | project_utopia/simulation/construction/construction_system.py:82-150 | every completion of a run has its placement, and the work in between comes to the seconds it takes |
| Builders.AssignedIff | project_utopia/simulation/construction/construction_sites.py:183-221 | a worker gets the first site it holds; else the nearest free one, the earliest among equals; else none |
| Builders.ReserveEffect | project_utopia/simulation/construction/construction_sites.py:183-220 | the worker is written down on that site and its overlay, and nothing else changes |
| Builders.AssignmentSticks | project_utopia/simulation/construction/construction_sites.py:183-220 | asking again, from anywhere, gives the same site |
| Builders.ReleaseEffect | project_utopia/simulation/construction/construction_sites.py:223-235 | releasing clears the worker from every site and overlay and changes nothing else |
| Builders.TickFreesTheDead | project_utopia/simulation/construction/construction_system.py:69-81 | a tick takes an unfinished blueprint away from a builder no longer alive and from no other |
| SiteMirror.RebuiltInOrder | project_utopia/simulation/construction/construction_sites.py:135-160 | a rebuild lists the sites by ascending flat index |
| BuildSystem.ColonyState.PlaceToolAt | project_utopia/simulation/construction/build_system.py:83-106 | the imperative form does to the fields what the placement function says |
| BuildSystem.ColonyState.PlaceBlueprint | project_utopia/simulation/construction/build_system.py:171-316 | the same for writing the overlay, the site and the charge |
| BuildSystem.ColonyState.CancelBlueprint | project_utopia/simulation/construction/build_system.py:318-372 | the same for cancelling |
| BuildSystem.ColonyState.SpliceSite | project_utopia/simulation/construction/construction_sites.py:68-77 | pops the first site at the tile |
| BuildSystem.ColonyState.RebuildSites | project_utopia/simulation/construction/construction_sites.py:135-160 | the loop over the overlays recomputes the list in index order |
| BuildSystem.ColonyState.ApplyConstructionWork | project_utopia/simulation/construction/construction_sites.py:163-180 | adds work to the overlay and its site |
| BuildSystem.ColonyState.HeldSite | project_utopia/simulation/construction/construction_sites.py:191-200 | finds the first site the worker holds; a worker without an id holds the unassigned ones |
| BuildSystem.ColonyState.NearestUnassigned | project_utopia/simulation/construction/construction_sites.py:201-214 | finds the nearest unassigned site, the earliest among equals |
| BuildSystem.ColonyState.FindOrReserveBuilderSite | project_utopia/simulation/construction/construction_sites.py:183-220 | gives the worker the site it already holds, else the nearest unassigned one, and writes that on the site and its overlay |
| BuildSystem.ColonyState.ReleaseBuilderSite | project_utopia/simulation/construction/construction_sites.py:223-235 | clears the worker from every site and overlay |
| BuildSystem.ColonyState.MutateTile | project_utopia/simulation/lifecycle/tile_mutation_hooks.py:237-247 | writes a tile unless it is already there |
| BuildSystem.ColonyState.VisitSite | project_utopia/simulation/construction/construction_system.py:54-150 | the body of the completion loop is one step of the walk |
| BuildSystem.ColonyState.Update | project_utopia/simulation/construction/construction_system.py:50-152 | the reverse loop that pops while it walks is the walk |
| PlanSteps.RunKeepsOrder | project_utopia/simulation/construction/plan_executor.py:50-139 | with unique ids, over any run and whatever the colony does between ticks, submissions form a linear extension of the dependencies and none comes twice |
| PlanSteps.TickKeepsOrder | project_utopia/simulation/construction/plan_executor.py:72-139 | a tick submits at most one step and moves statuses forward only |
| PlanSteps.TickSubmitsFirst | project_utopia/simulation/construction/plan_executor.py:84-118 | past ready steps whose placement is refused, a tick submits the first ready step whose blueprint can be placed; if there is none it submits nothing |
| PlanSteps.StepAfterTick | project_utopia/simulation/construction/plan_executor.py:72-139 | what a tick makes of every step: one whose dependencies are not all complete waits; of the others the first one placed is submitted and ends the tick, and one refused before that fails |
| PlanSteps.RefusedFailsForGood | project_utopia/simulation/construction/plan_executor.py:104-106 | a refused step has failed after every later run and is never submitted |
| PlanSteps.RunAdvances | project_utopia/simulation/construction/plan_executor.py:72-139 | over any run statuses only move forward |
| PlanSteps.FirstExists | project_utopia/simulation/construction/plan_executor.py:84-118 | one of the two cases holds unless a ready step is an erase that cancels a blueprint |
| PlanSteps.PathGoesBack | project_utopia/simulation/construction/plan_executor.py:120-124 | along a dependency path submissions lie ever earlier |
| PlanSteps.CyclesAreNeverSubmitted | project_utopia/simulation/construction/plan_executor.py:120-124 | a step on a dependency cycle is never submitted |
| PlanSteps.BlockedIsNeverSubmitted | project_utopia/simulation/construction/plan_executor.py:103-124 | nor is a step that depends, however indirectly, on one that has failed, is pending or does not exist |
| PlanOutcomes.RunIsSoundIff | project_utopia/simulation/construction/plan_executor.py:50-139 | over any run every submission has announced the blueprint of the tile change its step asks for, each at its own place in the log, and no blueprint of a step counted complete is untouched; this, the mirror and the log hold after every move if and only if no operation and no attempt that the executor makes reaches a blueprint from off the map |
| PlanOutcomes.RunWaits | project_utopia/simulation/construction/plan_executor.py:120-124 | over any such run a step is submitted only after everything its dependencies announced has been finished or cancelled in the log |
| PlanOutcomes.TickStrikeBreaks | project_utopia/simulation/construction/plan_executor.py:72-118 | an erase attempt that does reach one breaks the mirror, and nothing later in the tick repairs it |
| PlanOutcomes.CompleteCarriedOutIff | project_utopia/simulation/construction/plan_executor.py:126-139 | a complete step has had its own tile change carried out if and only if the next thing that happened at its tile was not a cancellation |
| PlanOutcomes.NoSharedCompletion | project_utopia/simulation/construction/plan_executor.py:126-139 | no completion carries out two submissions |
| PlanOutcomes.CancellationPromotes | project_utopia/simulation/construction/plan_executor.py:126-139 | from every sound state with a submitted step whose blueprint still stands, cancelling that and ticking makes the step complete and never carried out |
| PlanOutcomes.CompleteButCancelled | project_utopia/simulation/construction/plan_executor.py:126-139 | one such run: tick, cancel, tick; the step is complete, the tile is grass and nothing was finished |
| PlanExecutor.PlanExecutor.LoadPlan | project_utopia/simulation/construction/plan_executor.py:50-68 | replaces the plan; every step starts out pending |
| PlanExecutor.PlanExecutor.RefreshStatus | project_utopia/simulation/construction/plan_executor.py:126-139 | the loop promotes exactly the submitted steps without a site |
| PlanExecutor.PlanExecutor.AttemptStep | project_utopia/simulation/construction/plan_executor.py:86-118 | one turn of the submission loop is one attempt |
| PlanExecutor.PlanExecutor.Update | project_utopia/simulation/construction/plan_executor.py:72-118 | the imperative tick is the tick of the state machine |
| WorldEvents.RunKeeps | project_utopia/world/events.py:129-153 | over every run with fixed caps: active events of a kind never exceed its cap, active followed by queued is what was enqueued in order, and raids repelled counts each resolved raid once |
| WorldEvents.NothingLost | project_utopia/world/events.py:224-303 | queue and active list together hold exactly what was enqueued |
| WorldEvents.ActiveAreTheFirst | project_utopia/world/events.py:281-303 | after a tick exactly the first events of each kind, as many as its cap allows, are active |
| WorldEvents.DrainIsFifo | project_utopia/world/events.py:281-303 | a drain activates each kind first in, first out, as far as the cap allows |
| WorldEvents.TickKeepsAll | project_utopia/world/events.py:235-279 | no event ever reaches cooldown, so a tick drops none |
| WorldEvents.TickCountsRaids | project_utopia/world/events.py:235-279 | a tick counts each raid that resolves in it once |
| WorldEvents.RunAges | project_utopia/world/events.py:235-265 | over every run an active event is as old as the ticks since it was activated; it has resolved exactly if at one of them that reached the duration it was queued with, and is active otherwise |
| WorldEvents.RaidsRepelledHaveRunOut | project_utopia/world/events.py:258-265 | and raids repelled is the number of raids for which it has |
| WorldEvents.ClosedKindNeverActivates | project_utopia/world/events.py:281-303 | a kind with a cap of none never activates |
| WorldEvents.AmpleCapActivatesAll | project_utopia/world/events.py:281-303 | a kind with room for all its events has them all active after a tick; without a cap of its own there is room for 9999 |
| WorldEvents.PressureIsStable | project_utopia/world/events.py:235-279 | a second tick with the same weather, scenario and active set leaves every pressure unchanged |
| WorldEvents.TicksAloneActivateNothing | project_utopia/world/events.py:281-303 | between enqueues the active set of a ticked state is the same |
| WorldEvents.RaidBase | project_utopia/world/events.py:305-338 | the base pressure and the targets of a raid after a tick, in numbers |
| WorldEvents.MigrationBase | project_utopia/world/events.py:340-365 | those of a migration |
| WorldEvents.OtherBase | project_utopia/world/events.py:245-249 | anything else keeps its base, or takes the first its payload offers |
| WorldEvents.RaidBaseGrows | project_utopia/world/events.py:322-328 | rougher weather and more intense raids never make for less pressure |
| WorldEvents.LoneRaidContestsItself | project_utopia/world/events.py:384-423 | a raid with a depot names its tile twice and so contests it with itself: alone on the list it is pressed by one overlap |
| WorldEvents.TickKeepsBaseIff | project_utopia/world/events.py:384-423 | after any tick an event has its base pressure if and only if it is a caravan or names no tile that is named more than once |
| WorldEvents.LoneEventKeepsBaseIff | project_utopia/world/events.py:384-423 | alone on the list, if and only if it is a caravan or names no tile twice |
| WorldEvents.OverlapCountsEventsIff | project_utopia/world/events.py:393-405 | the overlap of a tile counts the events that name it, at least, and exactly if and only if none of them names it twice |
| WorldEvents.LastContestedDecides | project_utopia/world/events.py:403-423 | in closed form the pressure is the base plus 0.12 for each further naming of the last contested tile that the event names, rounded: penalties replace each other |
| WorldEvents.AddingIsMultiplyingIff | project_utopia/world/events.py:384-423 | adding 0.12 per overlap, as the code does, is multiplying by one plus 0.12 per overlap, as its description says, if and only if there is no overlap or the base is 1; at the three decimals kept, if and only if overlap times distance of the base from 1 is at most 0.004 |
| WorldEvents.AddingIsNotMultiplying | project_utopia/world/events.py:384-423 | the weakest raid alone at its depot has pressure 0.47, where the product is 0.392 |
| Rounding.Round3Twice | project_utopia/world/events.py:248-249 | rounding half to even at three decimals is idempotent |
| Rounding.NearestOrEvenIff | project_utopia/world/events.py:248-249 | rounding gives the nearest whole number, and of two equally near the even one |
| WorldEvents.WorldEventSystem.EnqueueEvent | project_utopia/world/events.py:129-153 | appends a fresh event to the queue |
| WorldEvents.WorldEventSystem.EnforceConcurrencyCaps | project_utopia/world/events.py:281-303 | the loop with running counts is the drain |
| WorldEvents.WorldEventSystem.WorkEvent | project_utopia/world/events.py:235-270 | the per-event part of a tick |
| WorldEvents.WorldEventSystem.WorkActive | project_utopia/world/events.py:235-270 | the loop over the active events, with the number of raids that resolve in it |
| WorldEvents.WorldEventSystem.IndexTiles | project_utopia/world/events.py:393-402 | the dictionary lists, per tile in the order of first naming, the events that name it, as often as they do |
| WorldEvents.WorldEventSystem.PressTile | project_utopia/world/events.py:403-423 | one contested tile rewrites the pressure of exactly the events that name it |
| WorldEvents.WorldEventSystem.ApplyContestedPressure | project_utopia/world/events.py:384-423 | the pass over the dictionary is the contested-pressure function of the lemmas above |
| WorldEvents.WorldEventSystem.Update | project_utopia/world/events.py:224-279 | the imperative tick is the tick of the state machine |
| Gini.GiniIsPairwise | project_utopia/benchmark/dimensions/resource_allocation_efficiency.py:47-64 | for every vector with a positive total the sorted one-pass formula is the sum of all pairwise differences over twice n times the total |
| Gini.AscendingPairs | project_utopia/benchmark/dimensions/resource_allocation_efficiency.py:59-64 | on an ascending vector the pairwise sum is the weighted sum less the total, weighted |
| Gini.NoTotalNoGini | project_utopia/benchmark/dimensions/resource_allocation_efficiency.py:54-58 | without a positive total the coefficient is 0 |
| Gini.GiniInRange | project_utopia/benchmark/dimensions/resource_allocation_efficiency.py:47-64 | a vector of n non-negative values has a coefficient in [0, (n-1)/n] |
| Gini.OrderDoesNotMatter | project_utopia/benchmark/dimensions/resource_allocation_efficiency.py:47-64 | vectors with the same values have the same coefficient |
| Gini.ScaleDoesNotMatter | project_utopia/benchmark/dimensions/resource_allocation_efficiency.py:47-64 | a common positive factor changes nothing |
| Gini.Compute | project_utopia/benchmark/dimensions/resource_allocation_efficiency.py:47-64 | the loops and the guards compute the coefficient of these lemmas |
| Pearson.Accumulate | project_utopia/benchmark/dimensions/group_dynamics.py:47-65 | after every element num squared is at most dx2 times dy2; at the end the accumulators are the dot products of the deviations |
| Pearson.CauchySchwarz | project_utopia/benchmark/dimensions/group_dynamics.py:54-62 | the dot product of two vectors squared is at most the product of their squares |
| Pearson.Correlate | project_utopia/benchmark/dimensions/group_dynamics.py:47-65 | the function computes the textbook correlation of the common prefix |
| Pearson.CorrelationInRange | project_utopia/benchmark/dimensions/group_dynamics.py:47-65 | the correlation of lists of any lengths lies in [-1, 1] |
| Pearson.CorrelationSymmetric | project_utopia/benchmark/dimensions/group_dynamics.py:47-65 | swapping the lists does not change it |
| Pearson.LinearCorrelation | project_utopia/benchmark/dimensions/group_dynamics.py:47-65 | lists on a common line correlate with 1 or -1 by the sign of the slope, and with 0 exactly when all their values are equal |
| Pearson.NoSpreadIffConstant | project_utopia/benchmark/dimensions/group_dynamics.py:54-62 | the squared deviations vanish exactly when all values are equal |
| Pearson.GroupCouplingMean | project_utopia/benchmark/dimensions/group_dynamics.py:68-94 | the double loop computes the mean over all unordered pairs with two keys or more |
| Pearson.PairIsCounted | project_utopia/benchmark/dimensions/group_dynamics.py:78-92 | every pair of groups with two keys or more between them enters the mean with the correlation of their weights along all those keys, zero for a missing one |
| Pearson.PairsAreCountedOnce | project_utopia/benchmark/dimensions/group_dynamics.py:76-93 | and nothing else does: g groups that are all coupled enter it g (g - 1) / 2 times |
| Pearson.KeptAre | project_utopia/benchmark/dimensions/group_dynamics.py:75-76 | groups with a policy are kept, those without are not |
| Pearson.CouplingInRange | project_utopia/benchmark/dimensions/group_dynamics.py:68-94 | that mean lies in [-1, 1] |
| Pearson.KeyOrderDoesNotMatter | project_utopia/benchmark/dimensions/group_dynamics.py:85-88 | no order of the keys changes the exact mean |
| Pvb.CorrectionsTelescope | project_utopia/benchmark/framework/pvb.py:131-143 | after any run the summed correction is the first sample less the average, over 0.15 |
| Pvb.MeanCorrectionShrinks | project_utopia/benchmark/framework/pvb.py:131-153 | the mean correction of n ticks is at most 1/(0.15 n) in size, and positive exactly when the average ends below the first sample |
| Pvb.CorrectionVanishes | project_utopia/benchmark/framework/pvb.py:145-160 | past 1/(0.15 e) ticks the adjusted score is within e of score less baseline |
| Pvb.Estimate | project_utopia/benchmark/framework/pvb.py:58-102 | the value lies in [0, 1]; rounded to six decimals it is 0 up to half a millionth and 1 from half a millionth below |
| Pvb.EstimateIsProduct | project_utopia/benchmark/framework/pvb.py:58-102 | in range the value is the product of the shares of 100 prosperity and 24 workers, with six decimals; beyond, more of either counts as that much, and without either it is 0 |
| Pvb.NearlyEmptyIsWorthNothing | project_utopia/benchmark/framework/pvb.py:58-102 | a village with one worker and a little prosperity, not empty, is valued 0 |
| Pvb.PVBTracker.RecordTick | project_utopia/benchmark/framework/pvb.py:131-143 | the fields stay the recurrences over all samples so far |
| Pvb.PVBTracker.Finalize | project_utopia/benchmark/framework/pvb.py:145-160 | the three numbers with six decimals; the adjusted score is score less baseline up to 1/(0.15 ticks) and the rounding |
| WinRates.PairRates | project_utopia/benchmark/framework/scoring_engine.py:321-346 | the rates of two agents against each other sum to at most 1, and to 1 exactly when they share a dimension and tie on none |
| WinRates.RateIsExtremeIff | project_utopia/benchmark/framework/scoring_engine.py:328-343 | an agent has rate 1 exactly if it is ahead wherever both have a score, and that is somewhere; rate 0 exactly if it is ahead nowhere |
| WinRates.BetterScoreHelps | project_utopia/benchmark/framework/scoring_engine.py:328-343 | a better score never lowers an agent's rate, nor raises its opponents' |
| WinRates.MeanRateInRange | project_utopia/benchmark/framework/scoring_engine.py:321-346 | every mean win rate lies in [0, 1], and a lone agent has 0 |
| WinRates.MeanRatesSumToHalf | project_utopia/benchmark/framework/scoring_engine.py:321-346 | the mean rates of n agents, two or more, sum to at most n/2, and to n/2 exactly when every pair shares a dimension and ties on none |
| WinRates.PairRate | project_utopia/benchmark/framework/scoring_engine.py:328-343 | the loop over the dimensions, in whatever order, computes the pair rate |
| WinRates.ComputeHelmMwr | project_utopia/benchmark/framework/scoring_engine.py:293-346 | the result maps every agent, and no one else, to its mean rate with four decimals |
| WinRates.ReportedInRange | project_utopia/benchmark/framework/scoring_engine.py:41-52 | the rounded rates are still in [0, 1], within 0.00005 of the mean rates |
| NeighborQuery.NearIff | project_utopia/simulation/movement/spatial_hash.py:102-107 | near is within the radius, the radius included |
| NeighborQuery.CellIsItsSquare | project_utopia/simulation/movement/spatial_hash.py:41-71 | a cell is a square of the cell size, its lower edges included |
| NeighborQuery.RingInOrder | project_utopia/simulation/movement/spatial_hash.py:95-97 | the ring is scanned by x and then by z |
| NeighborQuery.RingSufficesIff | project_utopia/simulation/movement/spatial_hash.py:74-116 | for every set of entities the 3x3 query finds what a filter over all entities finds, each as often, if and only if the radius is at most the cell size |
| NeighborQuery.ScanPicks | project_utopia/simulation/movement/spatial_hash.py:95-108 | what the scan of the first cells of the ring collects is a filter over all entities |
| NeighborQuery.OrderProofIff | project_utopia/simulation/movement/spatial_hash.py:108-125 | for every limit or none, the sorted answer is independent of the order of insertion if and only if the limit falls between whole cells of the ring, counted by brute force, and the sort key tells the hits apart |
| NeighborQuery.UniqueIdsSuffice | project_utopia/simulation/movement/spatial_hash.py:114-125 | so without a limit unique ids are enough |
| NeighborQuery.TieLeaksOrder | project_utopia/simulation/movement/spatial_hash.py:114-125 | two hits with one id on one spot are named in the order of insertion |
| NeighborQuery.CutLeaksOrder | project_utopia/simulation/movement/spatial_hash.py:108-116 | a limit reached inside a cell loses an entity that another order of insertion finds: sorting comes too late |
| NeighborQuery.OrderLeaks | project_utopia/simulation/movement/spatial_hash.py:108-125 | both happen: two entities on one spot with a limit of at most one, or without ids and limit |
| SpatialHash.SortedIsStable | project_utopia/simulation/movement/spatial_hash.py:114-125 | sorting leaves entities with equal keys in the order in which they came |
| SpatialHash.SortedByKey | project_utopia/simulation/movement/spatial_hash.py:119-125 | sorting is by id, then by x, then by z |
| SpatialHash.LexLessIff | project_utopia/simulation/movement/spatial_hash.py:119-125 | ids are compared as words |
| NeighborQuery.CrowdIsCut | project_utopia/simulation/movement/spatial_hash.py:108-116 | of several entities on one spot any smaller limit, which below one acts as one, cuts their cell |
| SpatialHash.SortedOrder | project_utopia/simulation/movement/spatial_hash.py:114-125 | sorting two arrangements of entities told apart by their keys gives one list |
| SpatialHash.ScanBucket | project_utopia/simulation/movement/spatial_hash.py:102-112 | the inner loop collects the near entities of a bucket until the limit is reached |
| SpatialHash.SpatialHash.Build | project_utopia/simulation/movement/spatial_hash.py:41-71 | every bucket holds exactly the entities of its cell in insertion order |
| SpatialHash.SpatialHash.QueryNeighbors | project_utopia/simulation/movement/spatial_hash.py:74-116 | the loops with their early return compute the limited and sorted scan |

## Left out

- Instant placement mode, wall hit points and their regeneration, and raids or other tile changes under
  a blueprint: they bypass the overlay lock, so the escrow statement is for blueprint-mode runs.
- The cascade of `on_tile_mutated`: building statistics, reservations, dirty keys, mutation hooks and
  the invalidation of agent paths (a stale path is already inactive by its version).
- The faction of a search: it only shuts walls again, which no search may enter anyway; entities keep it
  as part of the cache key.
- Running without a path cache, which behaves like a cache of size 0, and the sharing of one path list
  between cache and entity: paths are values here.
- `follow_path` and the reset of positions: an entity's moves are arbitrary.
- `is_adjacent_to_connected_road`, `stats` and the iteration over warehouses: easy consequences of the
  partition.
- Owner, start time, reason and history fields of overlays and plan steps, and the delivery of bus events.
- The choice of event anchors, the random impact tile, herbivore memory, caravan reward multipliers and
  the contested-tile counter: anchors and hazard factors are arbitrary inputs of a tick.
- Resource-flow accounting in `resource_system.py`, the geometric mean, entropy, sandwich normalisation,
  effect sizes and Bayes factors: easy members or transcendental functions.
- IEEE rounding and non-finite intermediate values.
- BuildSystem.ColonyState.PlaceToolAt: with the option for instant placement fixed to off.
- BuildSystem.ColonyState.MutateTile: without the cascade named above.
- BuildSystem.ColonyState.Update: without the pass that regenerates walls.
- WorldEvents.WorldEventSystem.PressTile: without the reward multiplier and the contested-tile counter of
  a caravan.
- WorldEvents.WorldEventSystem.WorkEvent: without the caravan multipliers, severity, impact tile and
  herbivore memory, which no pressure depends on.
- Language-model adapters, channels, prompts, the harness, seeding and telemetry.
- StepCosts.EveryStepCostsARoad: asks for weather of at least 1 and heights that are not negative, because
  the search accepts smaller ones and then guarantees only what AStar.Search states.
- WorldEvents.PressureIsStable: asks that the second tick activates nothing new, which
  WorldEvents.TicksAloneActivateNothing shows for runs of ticks.
