/** The construction protocol on values: overlays on tiles, the mirrored site list, the resource
    ledger, and one step of each operation. */
module Construction {
  import opened Wrappers
  import opened Tiles
  import opened Sums
  import opened BuildAdvisor

  datatype Kind = Build | Demolish

  type WorkerId = string

  datatype Overlay = Overlay(
    kind: Kind, tool: Tool, target: int, original: int,
    workTotal: real, workApplied: real, builder: Option<WorkerId>,
    cost: Resources, refund: Resources, cancelable: bool)

  datatype Site = Site(p: Point, kind: Kind, tool: Tool, builder: Option<WorkerId>, workApplied: real, workTotal: real)

  /** What the event bus records about blueprints. */
  datatype Event = Blueprint(p: Point, target: int) | Finished(p: Point, target: int) | Cancelled(p: Point)

  datatype Colony = Colony(m: Terrain, resources: Resources, overlays: map<int, Overlay>, sites: seq<Site>,
                           log: seq<Event>)

  datatype Phase = Rejected | BlueprintPhase | CancelPhase

  datatype Outcome = Outcome(ok: bool, reason: Reason, phase: Phase)

  // ---- work tables ------------------------------------------------------------------

  function BuildWorkSec(tool: Tool): (sec: real)
    ensures sec > 0.0
  {
    match tool
    case Road => 1.5
    case Warehouse => 6.0
    case Wall => 5.0
    case Quarry => 5.0
    case Bridge => 5.0
    case _ => 4.0
  }

  function DemolishWorkSec(tile: int): (sec: real)
    ensures sec > 0.0
  {
    if tile == RUINS then 1.5 else if tile == WALL then 2.5 else 3.0
  }

  predicate BuiltStructure(tile: int) {
    tile in {FARM, LUMBER, WAREHOUSE, WALL, QUARRY, BRIDGE, ROAD}
  }

  // ---- overlays and sites ---------------------------------------------------------------

  function KeyOf(c: Colony, p: Point): int {
    ToIndex(p, c.m.width)
  }

  function OverlayAt(c: Colony, p: Point): Option<Overlay> {
    if KeyOf(c, p) in c.overlays then Some(c.overlays[KeyOf(c, p)]) else None
  }

  function SiteOf(p: Point, o: Overlay): Site {
    Site(p, o.kind, o.tool, o.builder, o.workApplied, o.workTotal)
  }

  /** The index of the first site at p, or the length of the list. */
  function SiteIndex(sites: seq<Site>, p: Point): (i: nat)
    ensures i <= |sites| && (i < |sites| ==> sites[i].p == p)
    ensures forall j :: 0 <= j < i ==> sites[j].p != p
  {
    if sites == [] then 0 else if sites[0].p == p then 0 else 1 + SiteIndex(sites[1..], p)
  }

  function RemoveAt(sites: seq<Site>, i: nat): seq<Site> {
    if i < |sites| then sites[..i] + sites[i + 1..] else sites
  }

  // ---- placement and cancellation -----------------------------------------------------------

  function CancelBlueprint(c: Colony, p: Point): (Colony, Outcome) {
    match OverlayAt(c, p)
    case None => (c, Outcome(false, NoBlueprint, Rejected))
    case Some(o) =>
      if !o.cancelable then (c, Outcome(false, BlueprintLocked, Rejected))
      else
        (c.(resources := Refund(c.resources, o.cost),
            overlays := c.overlays - {KeyOf(c, p)},
            sites := RemoveAt(c.sites, SiteIndex(c.sites, p)),
            log := c.log + [Cancelled(p)]),
         Outcome(true, Fine, CancelPhase))
  }

  /** The overlay a placement writes, once the preview and the purse allow it. */
  function NewOverlay(tool: Tool, preview: Preview): Overlay {
    if tool == Erase then
      Overlay(Demolish, Erase, preview.newType, preview.oldType, DemolishWorkSec(preview.oldType), 0.0, None,
              Resources(0.0, 1.0, 0.0), preview.refund, true)
    else
      Overlay(Build, tool, preview.newType, preview.oldType, BuildWorkSec(tool), 0.0, None,
              preview.cost, preview.refund, true)
  }

  function WriteBlueprint(c: Colony, p: Point, o: Overlay): Colony {
    c.(resources := Spend(c.resources, o.cost),
       overlays := c.overlays[KeyOf(c, p) := o],
       sites := c.sites + [SiteOf(p, o)],
       log := c.log + [Blueprint(p, o.target)])
  }

  /** Why a blueprint is refused after a good preview, or Fine. */
  function Refusal(c: Colony, tool: Tool, p: Point, preview: Preview): Reason {
    if OverlayAt(c, p).Some? then AlreadyUnderConstruction
    else if tool == Erase && !BuiltStructure(preview.oldType) && preview.oldType != RUINS then NotDemolishable
    else if !CanAfford(c.resources, NewOverlay(tool, preview).cost) then InsufficientResource
    else Fine
  }

  function PlaceToolAt(c: Colony, tool: Tool, p: Point): (Colony, Outcome)
    requires WellFormed(c.m)
  {
    if tool == Erase && OverlayAt(c, p).Some? then CancelBlueprint(c, p)
    else
      var preview := EvaluatePreview(c.m, c.resources, tool, p);
      if preview.reason != Fine then (c, Outcome(false, preview.reason, Rejected))
      else if Refusal(c, tool, p, preview) != Fine then (c, Outcome(false, Refusal(c, tool, p, preview), Rejected))
      else (WriteBlueprint(c, p, NewOverlay(tool, preview)), Outcome(true, Fine, BlueprintPhase))
  }

  // ---- work and builders -----------------------------------------------------------------------

  function Positive(r: real): real {
    if r < 0.0 then 0.0 else r
  }

  function ApplyWork(c: Colony, p: Point, dt: real): Colony {
    match OverlayAt(c, p)
    case None => c
    case Some(o) =>
      var worked := o.(workApplied := Positive(o.workApplied) + Positive(dt));
      var i := SiteIndex(c.sites, p);
      c.(overlays := c.overlays[KeyOf(c, p) := worked],
         sites := if i < |c.sites|
                  then c.sites[i := c.sites[i].(workApplied := worked.workApplied, workTotal := worked.workTotal)]
                  else c.sites)
  }

  function Distance(p: Point, x: real, z: real): real {
    Abs(p.x as real - x) + Abs(p.z as real - z)
  }

  /** No builder, or one whose id is empty: the source takes both for unassigned. */
  predicate Unassigned(builder: Option<WorkerId>) {
    builder.None? || builder.value == ""
  }

  /** A worker without an id, None, holds every site without a builder. */
  predicate HeldBy(s: Site, w: Option<WorkerId>) {
    s.builder == w
  }

  /** The first site the worker holds, or the length of the list. */
  function FirstHeld(sites: seq<Site>, w: Option<WorkerId>): (i: nat)
    ensures i <= |sites| && (i < |sites| ==> HeldBy(sites[i], w))
    ensures forall j :: 0 <= j < i ==> !HeldBy(sites[j], w)
  {
    if sites == [] then 0 else if HeldBy(sites[0], w) then 0 else 1 + FirstHeld(sites[1..], w)
  }

  /** The nearest unassigned site among the first n, the earliest among equals. */
  function NearestFree(sites: seq<Site>, n: nat, x: real, z: real): (r: Option<nat>)
    requires n <= |sites|
    ensures r.Some? ==> r.value < n && Unassigned(sites[r.value].builder)
    ensures r.None? <==> forall j :: 0 <= j < n ==> !Unassigned(sites[j].builder)
    ensures r.Some? ==> forall j :: 0 <= j < n && Unassigned(sites[j].builder) ==>
              Distance(sites[r.value].p, x, z) <= Distance(sites[j].p, x, z)
    ensures r.Some? ==> forall j :: 0 <= j < r.value && Unassigned(sites[j].builder) ==>
              Distance(sites[r.value].p, x, z) < Distance(sites[j].p, x, z)
  {
    if n == 0 then None
    else
      var best := NearestFree(sites, n - 1, x, z);
      if !Unassigned(sites[n - 1].builder) then best
      else if best.None? || Distance(sites[n - 1].p, x, z) < Distance(sites[best.value].p, x, z) then Some(n - 1)
      else best
  }

  /** The site a worker at (x, z) gets: the one it already holds, else the nearest free one. */
  function Assigned(sites: seq<Site>, w: Option<WorkerId>, x: real, z: real): (r: Option<nat>)
    ensures r.Some? ==> r.value < |sites|
  {
    if FirstHeld(sites, w) < |sites| then Some(FirstHeld(sites, w)) else NearestFree(sites, |sites|, x, z)
  }

  /** Writing an assignment down on the site and on its overlay. */
  function Reserve(c: Colony, w: Option<WorkerId>, i: nat): Colony
    requires i < |c.sites|
  {
    var s := c.sites[i];
    if HeldBy(s, w) then
      match OverlayAt(c, s.p)
      case None => c
      case Some(o) => c.(sites := c.sites[i := s.(workApplied := o.workApplied, workTotal := o.workTotal)])
    else
      c.(sites := c.sites[i := s.(builder := w)],
         overlays := match OverlayAt(c, s.p)
                     case None => c.overlays
                     case Some(o) => c.overlays[KeyOf(c, s.p) := o.(builder := w)])
  }

  function FreedOverlay(c: Colony, s: Site): map<int, Overlay> {
    match OverlayAt(c, s.p)
    case None => c.overlays
    case Some(o) => c.overlays[KeyOf(c, s.p) := o.(builder := None)]
  }

  /** Frees every site the worker holds among the first n. */
  function Release(c: Colony, w: Option<WorkerId>, n: nat): Colony
    requires n <= |c.sites|
    ensures |Release(c, w, n).sites| == |c.sites| && Release(c, w, n).m == c.m && Release(c, w, n).log == c.log
    ensures forall j :: n <= j < |c.sites| ==> Release(c, w, n).sites[j] == c.sites[j]
  {
    if n == 0 then c
    else
      var d := Release(c, w, n - 1);
      var s := d.sites[n - 1];
      if HeldBy(s, w) then d.(sites := d.sites[n - 1 := s.(builder := None)], overlays := FreedOverlay(d, s)) else d
  }

  // ---- completion ----------------------------------------------------------------------------------

  predicate Done(o: Overlay) {
    o.workTotal > 0.0 && o.workApplied >= o.workTotal
  }

  /** The overlay after the check that its builder is still alive. */
  function Checked(o: Overlay, alive: set<WorkerId>): Overlay {
    if !Unassigned(o.builder) && o.builder.value !in alive then o.(builder := None) else o
  }

  /** What the completion pass does with site i. */
  function Visit(c: Colony, i: nat, alive: set<WorkerId>): (r: Colony)
    requires WellFormed(c.m) && i < |c.sites|
    ensures WellFormed(r.m) && r.m.width == c.m.width && r.m.height == c.m.height && |r.m.tiles| == |c.m.tiles|
    ensures i <= |r.sites|
  {
    var p := c.sites[i].p;
    match OverlayAt(c, p)
    case None => c.(sites := RemoveAt(c.sites, i))
    case Some(o) =>
      var o' := Checked(o, alive);
      if Done(o) then
        c.(m := WriteTile(c.m, p, o.target),
           resources := if o.kind == Demolish then Refund(c.resources, o.refund) else c.resources,
           overlays := c.overlays - {KeyOf(c, p)},
           sites := RemoveAt(c.sites, i),
           log := c.log + [Finished(p, o.target)])
      else
        c.(overlays := c.overlays[KeyOf(c, p) := o'],
           sites := c.sites[i := c.sites[i].(workApplied := o.workApplied, workTotal := o.workTotal,
                                             builder := o'.builder)])
  }

  /** The reverse walk over the first n sites. */
  function Walk(c: Colony, n: nat, alive: set<WorkerId>): (r: Colony)
    requires WellFormed(c.m) && n <= |c.sites|
    ensures WellFormed(r.m) && r.m.width == c.m.width && r.m.height == c.m.height && |r.m.tiles| == |c.m.tiles|
    decreases n
  {
    if n == 0 then c else Walk(Visit(c, n - 1, alive), n - 1, alive)
  }

  /** The site list that the overlays of the first n cells call for, in index order. */
  function RebuiltBelow(c: Colony, n: nat): seq<Site>
    requires c.m.width > 0
  {
    if n == 0 then []
    else if n - 1 in c.overlays then RebuiltBelow(c, n - 1) + [SiteOf(OfIndex(n - 1, c.m.width), c.overlays[n - 1])]
    else RebuiltBelow(c, n - 1)
  }

  function Rebuilt(c: Colony): seq<Site>
    requires c.m.width > 0
  {
    RebuiltBelow(c, |c.m.tiles|)
  }

  /** One tick of the construction system; the walk is followed by a rebuild when the list is
      empty on every 300th tick although some overlay is left. */
  function Update(c: Colony, alive: set<WorkerId>, tick: int): Colony
    requires WellFormed(c.m) && c.m.width > 0
  {
    if c.sites == [] then c
    else
      var d := Walk(c, |c.sites|, alive);
      if tick > 0 && tick % 300 == 0 && d.sites == [] && d.overlays.Keys != {} then d.(sites := Rebuilt(d)) else d
  }
}
