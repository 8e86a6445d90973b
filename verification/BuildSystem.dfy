/** The construction protocol as the simulation runs it: build_system.py, construction_sites.py and
    construction_system.py updating one shared state in place. */
module BuildSystem {
  import opened Wrappers
  import opened Tiles
  import opened Grids
  import opened BuildAdvisor
  import C = Construction
  import opened SiteMirror
  import opened ConstructionRuns

  lemma NearestIsNotHeld(sites: seq<C.Site>, w: Option<C.WorkerId>, x: real, z: real)
    requires C.FirstHeld(sites, w) == |sites| && C.NearestFree(sites, |sites|, x, z).Some?
    ensures !C.HeldBy(sites[C.NearestFree(sites, |sites|, x, z).value], w)
  {
  }

  class ColonyState {
    const grid: Grid
    var resources: Resources
    var overlays: map<int, C.Overlay>
    var sites: seq<C.Site>
    var log: seq<C.Event>

    ghost predicate Valid()
      reads this, grid, grid.tiles
    {
      grid.Valid()
    }

    ghost function View(): C.Colony
      reads this, grid, grid.tiles
    {
      C.Colony(grid.Map(), resources, overlays, sites, log)
    }

    constructor (grid: Grid, resources: Resources)
      requires grid.Valid()
      ensures this.grid == grid && Valid() && View() == C.Colony(grid.Map(), resources, map[], [], [])
      ensures ValidSites(View())
    {
      this.grid, this.resources := grid, resources;
      overlays, sites, log := map[], [], [];
      new;
      FreshColonyIsValid(grid.Map(), resources);
    }

    // ---- site list ------------------------------------------------------------------

    /** Pops the first site at p. */
    method SpliceSite(p: Point)
      modifies `sites
      ensures sites == C.RemoveAt(old(sites), C.SiteIndex(old(sites), p))
    {
      var i := 0;
      while i < |sites| && sites[i].p != p
        invariant 0 <= i <= |sites| && sites == old(sites)
        invariant forall j :: 0 <= j < i ==> sites[j].p != p
      {
        i := i + 1;
      }
      if i < |sites| {
        sites := sites[..i] + sites[i + 1..];
      }
    }

    /** Recomputes the list from the overlays, in index order. */
    method RebuildSites()
      requires Valid()
      modifies `sites
      ensures Valid() && View() == old(View()).(sites := C.Rebuilt(old(View())))
    {
      var out: seq<C.Site> := [];
      ghost var c := View();
      for k := 0 to grid.tiles.Length
        invariant Valid() && View() == c && out == C.RebuiltBelow(c, k)
      {
        if k in overlays {
          out := out + [C.SiteOf(OfIndex(k, grid.width), overlays[k])];
        }
      }
      sites := out;
    }

    // ---- placement --------------------------------------------------------------------

    method CancelBlueprint(p: Point) returns (r: C.Outcome)
      requires Valid()
      modifies this
      ensures Valid() && (View(), r) == C.CancelBlueprint(old(View()), p)
    {
      var k := ToIndex(p, grid.width);
      if k !in overlays {
        return C.Outcome(false, NoBlueprint, C.Rejected);
      }
      var o := overlays[k];
      if !o.cancelable {
        return C.Outcome(false, BlueprintLocked, C.Rejected);
      }
      resources := Refund(resources, o.cost);
      overlays := overlays - {k};
      SpliceSite(p);
      log := log + [C.Cancelled(p)];
      return C.Outcome(true, Fine, C.CancelPhase);
    }

    method PlaceToolAt(tool: Tool, p: Point) returns (r: C.Outcome)
      requires Valid()
      modifies this
      ensures Valid() && (View(), r) == C.PlaceToolAt(old(View()), tool, p)
    {
      var k := ToIndex(p, grid.width);
      if tool == Erase && k in overlays {
        r := CancelBlueprint(p);
        return;
      }
      var preview := EvaluatePreview(grid.Map(), resources, tool, p);
      if preview.reason != Fine {
        return C.Outcome(false, preview.reason, C.Rejected);
      }
      r := PlaceBlueprint(tool, p, preview);
    }

    method PlaceBlueprint(tool: Tool, p: Point, preview: Preview) returns (r: C.Outcome)
      requires Valid() && preview == EvaluatePreview(grid.Map(), resources, tool, p) && preview.reason == Fine
      requires tool == Erase ==> C.OverlayAt(View(), p).None?
      modifies this
      ensures Valid() && (View(), r) == C.PlaceToolAt(old(View()), tool, p)
    {
      var k := ToIndex(p, grid.width);
      if k in overlays {
        return C.Outcome(false, AlreadyUnderConstruction, C.Rejected);
      }
      if tool == Erase && !C.BuiltStructure(preview.oldType) && preview.oldType != RUINS {
        return C.Outcome(false, NotDemolishable, C.Rejected);
      }
      var o := C.NewOverlay(tool, preview);
      if !CanAfford(resources, o.cost) {
        return C.Outcome(false, InsufficientResource, C.Rejected);
      }
      resources := Spend(resources, o.cost);
      overlays := overlays[k := o];
      sites := sites + [C.SiteOf(p, o)];
      log := log + [C.Blueprint(p, o.target)];
      return C.Outcome(true, Fine, C.BlueprintPhase);
    }

    // ---- work and builders ---------------------------------------------------------------

    method ApplyConstructionWork(p: Point, dt: real)
      requires Valid()
      modifies this
      ensures Valid() && View() == C.ApplyWork(old(View()), p, dt)
    {
      var k := ToIndex(p, grid.width);
      if k !in overlays {
        return;
      }
      var o := overlays[k].(workApplied := C.Positive(overlays[k].workApplied) + C.Positive(dt));
      overlays := overlays[k := o];
      var i := 0;
      while i < |sites|
        invariant 0 <= i <= |sites| && sites == old(sites) && overlays == old(overlays)[k := o]
        invariant resources == old(resources) && log == old(log)
        invariant forall j :: 0 <= j < i ==> sites[j].p != p
      {
        if sites[i].p == p {
          sites := sites[i := sites[i].(workApplied := o.workApplied, workTotal := o.workTotal)];
          return;
        }
        i := i + 1;
      }
    }

    /** The first site the worker holds, or the length of the list. */
    method HeldSite(w: Option<C.WorkerId>) returns (i: nat)
      ensures i == C.FirstHeld(sites, w)
    {
      i := 0;
      while i < |sites| && !C.HeldBy(sites[i], w)
        invariant i <= |sites|
        invariant forall j :: 0 <= j < i ==> !C.HeldBy(sites[j], w)
      {
        i := i + 1;
      }
    }

    method NearestUnassigned(x: real, z: real) returns (best: Option<nat>)
      ensures best == C.NearestFree(sites, |sites|, x, z)
    {
      best := None;
      for j := 0 to |sites|
        invariant best == C.NearestFree(sites, j, x, z)
      {
        if C.Unassigned(sites[j].builder) {
          if best.None? || C.Distance(sites[j].p, x, z) < C.Distance(sites[best.value].p, x, z) {
            best := Some(j);
          }
        }
      }
    }

    /** Gives the worker the site it already holds, or the nearest unassigned one. */
    method FindOrReserveBuilderSite(w: Option<C.WorkerId>, x: real, z: real) returns (r: Option<nat>)
      requires Valid()
      modifies `sites, `overlays
      ensures Valid() && r == C.Assigned(old(sites), w, x, z)
      ensures View() == match r case None => old(View()) case Some(i) => C.Reserve(old(View()), w, i)
    {
      hide C.FirstHeld, C.NearestFree, C.Distance;
      var i := HeldSite(w);
      if i < |sites| {
        var k := ToIndex(sites[i].p, grid.width);
        if k in overlays {
          sites := sites[i := sites[i].(workApplied := overlays[k].workApplied, workTotal := overlays[k].workTotal)];
        }
        return Some(i);
      }
      var best := NearestUnassigned(x, z);
      if best.Some? {
        NearestIsNotHeld(sites, w, x, z);
        var s := sites[best.value];
        sites := sites[best.value := s.(builder := w)];
        var k := ToIndex(s.p, grid.width);
        if k in overlays {
          overlays := overlays[k := overlays[k].(builder := w)];
        }
      }
      return best;
    }

    method ReleaseBuilderSite(w: Option<C.WorkerId>)
      requires Valid()
      modifies this
      ensures Valid() && View() == C.Release(old(View()), w, |old(sites)|)
    {
      ghost var c := View();
      for i := 0 to |sites|
        invariant Valid() && i <= |c.sites| && |sites| == |c.sites| && View() == C.Release(c, w, i)
      {
        if C.HeldBy(sites[i], w) {
          var k := ToIndex(sites[i].p, grid.width);
          sites := sites[i := sites[i].(builder := None)];
          if k in overlays {
            overlays := overlays[k := overlays[k].(builder := None)];
          }
        }
      }
    }

    // ---- completion -------------------------------------------------------------------------

    /** Writes a tile unless it is already there. */
    method MutateTile(p: Point, t: int) returns (changed: bool)
      requires Valid()
      modifies grid, grid.tiles
      ensures Valid() && grid.Map() == WriteTile(old(grid.Map()), p, t)
      ensures grid.version == old(grid.version) + (if changed then 1 else 0)
    {
      changed := grid.SetTile(p, t);
    }

    /** The body of the completion loop for site i. */
    method VisitSite(i: nat, alive: set<C.WorkerId>)
      requires Valid() && i < |sites|
      modifies this, grid, grid.tiles
      ensures Valid() && View() == C.Visit(old(View()), i, alive)
    {
      hide ToIndex, Refund, WriteTile, Grid.Valid;
      var p := sites[i].p;
      var k := ToIndex(p, grid.width);
      if k !in overlays {
        sites := sites[..i] + sites[i + 1..];
        return;
      }
      sites := sites[i := sites[i].(workApplied := overlays[k].workApplied, workTotal := overlays[k].workTotal,
                                    builder := overlays[k].builder)];
      if !C.Unassigned(overlays[k].builder) && overlays[k].builder.value !in alive {
        overlays := overlays[k := overlays[k].(builder := None)];
        sites := sites[i := sites[i].(builder := None)];
      }
      var o := overlays[k];
      if o.workTotal <= 0.0 || o.workApplied < o.workTotal {
        return;
      }
      overlays := overlays - {k};
      sites := sites[..i] + sites[i + 1..];
      var _ := MutateTile(p, o.target);
      if o.kind == C.Demolish {
        resources := Refund(resources, o.refund);
      }
      log := log + [C.Finished(p, o.target)];
    }

    /** One tick: the sites are walked from the last to the first, so that popping one does not
        shift those still to come. */
    method Update(alive: set<C.WorkerId>, tick: int)
      requires Valid()
      modifies this, grid, grid.tiles
      ensures Valid() && View() == C.Update(old(View()), alive, tick)
    {
      if sites == [] {
        return;
      }
      ghost var c := View();
      var i := |sites|;
      while i > 0
        invariant Valid() && 0 <= i <= |sites|
        invariant C.Walk(View(), i, alive) == C.Walk(c, |c.sites|, alive)
      {
        i := i - 1;
        VisitSite(i, alive);
      }
      if tick > 0 && tick % 300 == 0 && sites == [] && overlays.Keys != {} {
        RebuildSites();
      }
    }
  }
}
