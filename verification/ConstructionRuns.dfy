/** Whole runs of blueprint-mode construction: any sequence of placements, cancellations, work,
    builder assignments and ticks. */
module ConstructionRuns {
  import opened Wrappers
  import opened Tiles
  import opened BuildAdvisor
  import opened Construction
  import opened Ledger
  import opened SiteMirror

  datatype Op =
    | Place(tool: Tool, p: Point)
    | Cancel(p: Point)
    | Work(p: Point, dt: real)
    | Assign(worker: Option<WorkerId>, x: real, z: real)
    | Free(worker: Option<WorkerId>)
    | Tick(alive: set<WorkerId>, tick: int)

  function Step(c: Colony, op: Op): (r: Colony)
    requires WellFormed(c.m) && c.m.width > 0
    ensures WellFormed(r.m) && r.m.width == c.m.width && r.m.height == c.m.height
  {
    match op
    case Place(tool, p) => PlaceToolAt(c, tool, p).0
    case Cancel(p) => CancelBlueprint(c, p).0
    case Work(p, dt) => ApplyWork(c, p, dt)
    case Assign(w, x, z) =>
      (match Assigned(c.sites, w, x, z)
       case None => c
       case Some(i) => Reserve(c, w, i))
    case Free(w) => Release(c, w, |c.sites|)
    case Tick(alive, tick) => Update(c, alive, tick)
  }

  function Run(c: Colony, ops: seq<Op>): (r: Colony)
    requires WellFormed(c.m) && c.m.width > 0
    ensures WellFormed(r.m) && r.m.width == c.m.width && r.m.height == c.m.height
  {
    if ops == [] then c else Step(Run(c, ops[..|ops| - 1]), ops[|ops| - 1])
  }

  lemma {:induction false} WalkGrowsLog(c: Colony, n: nat, alive: set<WorkerId>)
    requires WellFormed(c.m) && n <= |c.sites|
    ensures c.log <= Walk(c, n, alive).log
    decreases n
  {
    if n > 0 { WalkGrowsLog(Visit(c, n - 1, alive), n - 1, alive); }
  }

  lemma StepGrowsLog(c: Colony, op: Op)
    requires WellFormed(c.m) && c.m.width > 0
    ensures c.log <= Step(c, op).log
  {
    match op
    case Tick(alive, _) => WalkGrowsLog(c, |c.sites|, alive);
    case _ =>
  }

  // ---- the ledger, over every run -------------------------------------------------------------

  ghost predicate SitesOnMap(c: Colony) {
    forall i :: 0 <= i < |c.sites| ==> InBounds(c.sites[i].p, c.m)
  }

  ghost predicate ValidLedger(c: Colony) {
    ValidOverlays(c) && SitesOnMap(c)
  }

  lemma {:induction false} WalkLowersLedger(c: Colony, n: nat, alive: set<WorkerId>)
    requires ValidLedger(c) && n <= |c.sites|
    ensures ValidLedger(Walk(c, n, alive)) && NoMorePotential(c, Walk(c, n, alive))
    decreases n
  {
    if n > 0 {
      VisitLowersLedger(c, n - 1, alive);
      WalkLowersLedger(Visit(c, n - 1, alive), n - 1, alive);
      hide ValidOverlays, Potential;
    }
  }

  lemma UpdateLowersLedger(c: Colony, alive: set<WorkerId>, tick: int)
    requires ValidLedger(c)
    ensures ValidLedger(Update(c, alive, tick)) && NoMorePotential(c, Update(c, alive, tick))
  {
    WalkLowersLedger(c, |c.sites|, alive);
    var d := Walk(c, |c.sites|, alive);
    RebuiltMembers(d, |d.m.tiles|);
    NoCellChanges(d, d.(sites := Rebuilt(d)));
    hide Potential, FitsTile, Walk;
  }

  lemma ReleaseKeepsPlaces(c: Colony, w: Option<WorkerId>, n: nat)
    requires n <= |c.sites|
    ensures forall i :: 0 <= i < |c.sites| ==> Release(c, w, n).sites[i].p == c.sites[i].p
  {
    if n > 0 { ReleaseKeepsPlaces(c, w, n - 1); }
  }

  lemma StepKeepsPlaces(c: Colony, op: Op)
    requires ValidLedger(c) && !op.Tick?
    ensures SitesOnMap(Step(c, op))
  {
    hide WellFormed, EvaluatePreview;
    match op
    case Place(tool, p) => PlacementKeepsPlaces(c, tool, p);
    case Free(w) => ReleaseKeepsPlaces(c, w, |c.sites|);
    case _ =>
  }

  lemma PlacementKeepsPlaces(c: Colony, tool: Tool, p: Point)
    requires WellFormed(c.m) && SitesOnMap(c)
    ensures SitesOnMap(PlaceToolAt(c, tool, p).0)
  {
    hide WellFormed, CanAfford, NewOverlay, Refund, Spend;
    if !(tool == Erase && OverlayAt(c, p).Some?) {
      assert EvaluatePreview(c.m, c.resources, tool, p).reason == Fine ==> InBounds(p, c.m);
    }
  }

  /** Any operation, on the map or off it: only a tick can change the potential, and only downwards. */
  lemma StepKeepsLedger(c: Colony, op: Op)
    requires ValidLedger(c)
    ensures ValidLedger(Step(c, op)) && NoMorePotential(c, Step(c, op))
    ensures !op.Tick? ==> SamePotential(c, Step(c, op))
  {
    if !op.Tick? { StepKeepsPlaces(c, op); }
    hide Potential, FitsTile, PlaceToolAt, CancelBlueprint, ApplyWork, Reserve, Release, Update, SitesOnMap;
    match op
    case Place(tool, p) =>
      PlacementKeepsLedger(c, tool, p);
    case Cancel(p) =>
      CancelKeepsLedger(c, p);
    case Work(p, dt) =>
      WorkKeepsLedger(c, p, dt);
      SameLedgerKeepsPotential(c, ApplyWork(c, p, dt));
    case Assign(w, x, z) =>
      if Assigned(c.sites, w, x, z).Some? {
        var i := Assigned(c.sites, w, x, z).value;
        ReserveKeepsLedger(c, w, i);
        SameLedgerKeepsPotential(c, Reserve(c, w, i));
      }
    case Free(w) =>
      ReleaseKeepsLedger(c, w, |c.sites|);
      SameLedgerKeepsPotential(c, Release(c, w, |c.sites|));
    case Tick(alive, tick) =>
      UpdateLowersLedger(c, alive, tick);
  }

  /** Over any run, whatever tiles it names: stores plus escrow plus salvage value does not grow in
      any resource. */
  lemma {:induction false} RunKeepsLedger(c: Colony, ops: seq<Op>)
    requires ValidLedger(c)
    ensures ValidLedger(Run(c, ops)) && NoMorePotential(c, Run(c, ops))
  {
    if ops != [] {
      var front := ops[..|ops| - 1];
      RunKeepsLedger(c, front);
      StepKeepsLedger(Run(c, front), ops[|ops| - 1]);
    }
    hide ValidLedger, Step, Potential;
  }

  /** Building and demolishing one's way back to the same tiles, with nothing left in escrow, never
      leaves more in the stores than there was. */
  lemma NoProfit(c: Colony, ops: seq<Op>, key: Res)
    requires ValidLedger(c) && c.overlays == map[]
    requires Run(c, ops).overlays == map[] && Run(c, ops).m == c.m
    ensures Get(Run(c, ops).resources, key) <= Get(c.resources, key)
  {
    RunKeepsLedger(c, ops);
    var d := Run(c, ops);
    NoCellChanges(c, d.(resources := c.resources));
    assert Potential(d.(resources := c.resources), key) == Potential(c, key);
    assert CellValues(d.(resources := c.resources), key) == CellValues(d, key);
    assert Potential(d, key) <= Potential(c, key);
  }

  // ---- the mirror, over every run ----------------------------------------------------------------

  /** The operation reaches another tile's blueprint from off the map. */
  predicate Aliases(c: Colony, op: Op) {
    match op
    case Place(tool, p) => tool == Erase && Strikes(c, p)
    case Cancel(p) => Strikes(c, p)
    case Work(p, dt) => WorksAstray(c, p, dt)
    case _ => false
  }

  lemma StepKeepsSitesIff(c: Colony, op: Op)
    requires ValidSites(c)
    ensures ValidSites(Step(c, op)) <==> !Aliases(c, op)
  {
    match op
    case Place(tool, p) =>
      PlacementKeepsMirrorIff(c, tool, p);
    case Cancel(p) =>
      CancelKeepsLedger(c, p);
      CancelKeepsMirrorIff(c, p);
    case Work(p, dt) =>
      WorkKeepsMirrorIff(c, p, dt);
    case Assign(w, x, z) =>
      if Assigned(c.sites, w, x, z).Some? {
        ReserveKeepsMirror(c, w, x, z);
      }
    case Free(w) =>
      ReleaseKeepsMirror(c, w, |c.sites|);
    case Tick(alive, tick) =>
      UpdateKeepsMirror(c, alive, tick);
  }

  ghost predicate NeverAliases(c: Colony, ops: seq<Op>)
    requires WellFormed(c.m) && c.m.width > 0
  {
    forall n :: 0 <= n < |ops| ==> !Aliases(Run(c, ops[..n]), ops[n])
  }

  ghost predicate AlwaysValid(c: Colony, ops: seq<Op>)
    requires WellFormed(c.m) && c.m.width > 0
  {
    forall n :: 0 <= n <= |ops| ==> ValidSites(Run(c, ops[..n]))
  }

  lemma RunStep(c: Colony, ops: seq<Op>, n: nat)
    requires WellFormed(c.m) && c.m.width > 0 && n < |ops|
    ensures Run(c, ops[..n + 1]) == Step(Run(c, ops[..n]), ops[n])
  {
    assert ops[..n + 1][..n] == ops[..n];
  }

  lemma {:induction false} ValidUpTo(c: Colony, ops: seq<Op>, n: nat)
    requires ValidSites(c) && NeverAliases(c, ops) && n <= |ops|
    ensures ValidSites(Run(c, ops[..n]))
  {
    if n > 0 {
      ValidUpTo(c, ops, n - 1);
      assert !Aliases(Run(c, ops[..n - 1]), ops[n - 1]);
      StepKeepsSitesIff(Run(c, ops[..n - 1]), ops[n - 1]);
      RunStep(c, ops, n - 1);
    }
  }

  /** The mirror, one site per tile and one site per worker hold after every step of a run exactly
      when no step reaches another tile's blueprint from off the map. */
  lemma RunKeepsSitesIff(c: Colony, ops: seq<Op>)
    requires ValidSites(c)
    ensures AlwaysValid(c, ops) <==> NeverAliases(c, ops)
  {
    assert WellFormed(c.m) && c.m.width > 0;
    hide ValidSites, Aliases, Step;
    if NeverAliases(c, ops) {
      forall n | 0 <= n <= |ops| ensures ValidSites(Run(c, ops[..n])) {
        ValidUpTo(c, ops, n);
      }
    } else {
      var n :| 0 <= n < |ops| && Aliases(Run(c, ops[..n]), ops[n]);
      RunStep(c, ops, n);
      if ValidSites(Run(c, ops[..n])) {
        StepKeepsSitesIff(Run(c, ops[..n]), ops[n]);
        assert !ValidSites(Run(c, ops[..n + 1]));
      }
    }
  }

  /** Operations that look an overlay up name a tile on the map; others may name anything. */
  predicate OnMap(op: Op, m: Terrain) {
    match op
    case Place(tool, p) => tool == Erase ==> InBounds(p, m)
    case Cancel(p) => InBounds(p, m)
    case Work(p, _) => InBounds(p, m)
    case _ => true
  }

  /** A run on the map needs no other precaution. */
  lemma RunsOnMapKeepSites(c: Colony, ops: seq<Op>)
    requires ValidSites(c) && forall n :: 0 <= n < |ops| ==> OnMap(ops[n], c.m)
    ensures AlwaysValid(c, ops)
  {
    forall n | 0 <= n < |ops| ensures !Aliases(Run(c, ops[..n]), ops[n]) {
      assert OnMap(ops[n], c.m);
    }
    RunKeepsSitesIff(c, ops);
  }

  /** In particular at the end: the site list is what a rebuild would give. */
  lemma RunKeepsSites(c: Colony, ops: seq<Op>)
    requires ValidSites(c) && NeverAliases(c, ops)
    ensures ValidSites(Run(c, ops)) && multiset(Run(c, ops).sites) == multiset(Rebuilt(Run(c, ops)))
  {
    ValidUpTo(c, ops, |ops|);
    assert ops[..|ops|] == ops;
    MirrorIsRebuild(Run(c, ops));
  }

  // ---- the rebuild, over every run ---------------------------------------------------------------

  /** Every overlay keeps a site, on the map or off it, whatever else has become of the mirror. */
  lemma StepStaysCovered(c: Colony, op: Op)
    requires Covered(c) && WellFormed(c.m) && c.m.width > 0
    ensures Covered(Step(c, op))
  {
    match op
    case Place(tool, p) =>
      PlacementStaysCovered(c, tool, p);
    case Cancel(p) =>
      CancelStaysCovered(c, p);
    case Work(p, dt) =>
      SamePlacesStayCovered(c, ApplyWork(c, p, dt));
    case Assign(w, x, z) =>
      SamePlacesStayCovered(c, Step(c, op));
    case Free(w) =>
      ReleaseStaysCovered(c, w, |c.sites|);
    case Tick(alive, tick) =>
      UpdateIsWalk(c, alive, tick);
  }

  lemma {:induction false} RunStaysCovered(c: Colony, ops: seq<Op>)
    requires Covered(c) && WellFormed(c.m) && c.m.width > 0
    ensures Covered(Run(c, ops))
  {
    if ops != [] {
      RunStaysCovered(c, ops[..|ops| - 1]);
      StepStaysCovered(Run(c, ops[..|ops| - 1]), ops[|ops| - 1]);
      hide Covered, Step;
    }
  }

  /** After any run at all a tick is the walk and nothing more: the periodic rebuild is dead code. */
  lemma RunNeverRebuilds(c: Colony, ops: seq<Op>, alive: set<WorkerId>, tick: int)
    requires Covered(c) && WellFormed(c.m) && c.m.width > 0
    ensures var d := Run(c, ops);
      Update(d, alive, tick) == Walk(d, |d.sites|, alive)
  {
    RunStaysCovered(c, ops);
    UpdateIsWalk(Run(c, ops), alive, tick);
  }

  /** An empty colony starts every run in a state that keeps the invariant. */
  lemma FreshColonyIsValid(m: Terrain, r: Resources)
    requires WellFormed(m) && m.width > 0
    ensures ValidSites(Colony(m, r, map[], [], []))
  {
  }

  // ---- the record of blueprints --------------------------------------------------------------

  /** The event closes the blueprint: it was finished or cancelled. */
  predicate Ends(e: Event, b: Event) {
    e.Blueprint? && (b == Finished(e.p, e.target) || b == Cancelled(e.p))
  }

  /** The event at b is the first one after a about the same tile. */
  ghost predicate NextAt(log: seq<Event>, a: nat, b: nat) {
    a < b < |log| && log[b].p == log[a].p && forall i :: a < i < b ==> log[i].p != log[a].p
  }

  /** Nothing is recorded about the tile after a. */
  ghost predicate Quiet(log: seq<Event>, a: nat)
    requires a < |log|
  {
    forall i :: a < i < |log| ==> log[i].p != log[a].p
  }

  /** The next event about a blueprint's tile ends it; the next one about the tile of an ending is
      another blueprint. */
  predicate Follows(e: Event, next: Event) {
    if e.Blueprint? then Ends(e, next) else next.Blueprint?
  }

  /** The tiles after the finished blueprints of the log, in their order. */
  function Replay(m: Terrain, log: seq<Event>): (r: Terrain)
    requires WellFormed(m)
    ensures WellFormed(r) && r.width == m.width && r.height == m.height
  {
    if log == [] then m
    else
      var before := Replay(m, log[..|log| - 1]);
      match log[|log| - 1]
      case Finished(p, t) => WriteTile(before, p, t)
      case _ => before
  }

  /** The event at a is followed as it should be, or it is the last word on its tile: then the
      blueprint stands as an overlay, or there is none. */
  ghost predicate Told(c: Colony, a: nat)
    requires a < |c.log|
  {
    var e := c.log[a];
    && InBounds(e.p, c.m)
    && ((exists b: nat :: NextAt(c.log, a, b) && Follows(e, c.log[b])) || (Quiet(c.log, a) && Stands(c, e)))
  }

  predicate Stands(c: Colony, e: Event) {
    if e.Blueprint? then KeyOf(c, e.p) in c.overlays && c.overlays[KeyOf(c, e.p)].target == e.target
    else KeyOf(c, e.p) !in c.overlays
  }

  /** The map is the first map with exactly the finished blueprints applied, and at each tile
      blueprints and endings take turns, the last word being what the overlays say. */
  ghost predicate LogTells(m: Terrain, c: Colony) {
    && WellFormed(m) && WellFormed(c.m) && c.m == Replay(m, c.log)
    && forall a :: 0 <= a < |c.log| ==> Told(c, a)
  }

  lemma NextIsForGood(log: seq<Event>, more: seq<Event>, a: nat, b: nat)
    requires NextAt(log, a, b)
    ensures NextAt(log + more, a, b)
  {
  }

  lemma NextIsUnique(log: seq<Event>, a: nat, b: nat, b': nat)
    requires NextAt(log, a, b) && NextAt(log, a, b')
    ensures b == b'
  {
  }

  /** Nothing recorded and no overlay gone: what was told stays told. */
  lemma QuietStepKeepsLog(m: Terrain, c: Colony, d: Colony)
    requires LogTells(m, c) && SameLedger(c, d) && d.log == c.log
    ensures LogTells(m, d)
  {
    forall a | 0 <= a < |d.log| ensures Told(d, a) {
      assert Told(c, a);
    }
  }

  /** One more event about a tile, if it follows from what the overlay there says and the overlays
      change accordingly there and nowhere else. */
  lemma EventKeepsLog(m: Terrain, c: Colony, d: Colony, e: Event)
    requires LogTells(m, c) && InBounds(e.p, c.m) && d.log == c.log + [e]
    requires d.m == if e.Finished? then WriteTile(c.m, e.p, e.target) else c.m
    requires forall k :: k != KeyOf(c, e.p) ==>
               (k in d.overlays <==> k in c.overlays) && (k in c.overlays ==> d.overlays[k] == c.overlays[k])
    requires Stands(d, e)
    requires forall last: Event :: last.p == e.p && Stands(c, last) ==> Follows(last, e)
    ensures LogTells(m, d)
  {
    assert d.log[..|c.log|] == c.log;
    forall a | 0 <= a < |d.log| ensures Told(d, a) {
      if a < |c.log| {
        assert Told(c, a);
        if Quiet(c.log, a) && Stands(c, c.log[a]) {
          if c.log[a].p == e.p {
            assert NextAt(d.log, a, |c.log|);
          } else {
            if KeyOf(c, c.log[a].p) == KeyOf(c, e.p) { SamePlace(c, c.log[a].p, e.p); }
            assert Quiet(d.log, a);
          }
        } else {
          var b: nat :| NextAt(c.log, a, b) && Follows(c.log[a], c.log[b]);
          NextIsForGood(c.log, [e], a, b);
        }
      }
    }
  }

  lemma BlueprintKeepsLog(m: Terrain, c: Colony, p: Point, o: Overlay)
    requires LogTells(m, c) && InBounds(p, c.m) && KeyOf(c, p) !in c.overlays
    ensures LogTells(m, WriteBlueprint(c, p, o))
  {
    EventKeepsLog(m, c, WriteBlueprint(c, p, o), Blueprint(p, o.target));
  }

  /** The overlay at p goes, and the event that says so ends whatever was announced there. */
  lemma EndingKeepsLog(m: Terrain, c: Colony, d: Colony, p: Point, e: Event)
    requires LogTells(m, c) && InBounds(p, c.m) && KeyOf(c, p) in c.overlays
    requires d.log == c.log + [e] && d.overlays == c.overlays - {KeyOf(c, p)}
    requires e == Cancelled(p) || e == Finished(p, c.overlays[KeyOf(c, p)].target)
    requires d.m == if e.Finished? then WriteTile(c.m, p, e.target) else c.m
    ensures LogTells(m, d)
  {
    EventKeepsLog(m, c, d, e);
  }

  lemma VisitKeepsLog(m: Terrain, c: Colony, i: nat, alive: set<WorkerId>)
    requires ValidSites(c) && LogTells(m, c) && i < |c.sites|
    ensures LogTells(m, Visit(c, i, alive))
  {
    assert SiteOk(c, i);
    var p, d := c.sites[i].p, Visit(c, i, alive);
    var o := OverlayAt(c, p).value;
    if Done(o) {
      EndingKeepsLog(m, c, d, p, Finished(p, o.target));
    } else {
      assert d.overlays.Keys == c.overlays.Keys;
      QuietStepKeepsLog(m, c, d);
    }
  }

  lemma {:induction false} WalkKeepsLog(m: Terrain, c: Colony, n: nat, alive: set<WorkerId>)
    requires ValidSites(c) && LogTells(m, c) && n <= |c.sites|
    ensures LogTells(m, Walk(c, n, alive))
    decreases n
  {
    if n > 0 {
      VisitKeepsMirror(c, n - 1, alive);
      VisitKeepsLog(m, c, n - 1, alive);
      WalkKeepsLog(m, Visit(c, n - 1, alive), n - 1, alive);
    }
  }

  lemma PlacementKeepsLog(m: Terrain, c: Colony, tool: Tool, p: Point)
    requires ValidSites(c) && LogTells(m, c) && !(tool == Erase && Strikes(c, p))
    ensures LogTells(m, PlaceToolAt(c, tool, p).0)
  {
    if tool == Erase && OverlayAt(c, p).Some? {
      CancelKeepsLog(m, c, p);
    } else {
      var preview := EvaluatePreview(c.m, c.resources, tool, p);
      if preview.reason == Fine && Refusal(c, tool, p, preview) == Fine {
        NewOverlayFits(c, tool, p);
        BlueprintKeepsLog(m, c, p, NewOverlay(tool, preview));
      }
    }
  }

  lemma CancelKeepsLog(m: Terrain, c: Colony, p: Point)
    requires LogTells(m, c) && !Strikes(c, p)
    ensures LogTells(m, CancelBlueprint(c, p).0)
  {
    if CancelBlueprint(c, p).1.ok {
      EndingKeepsLog(m, c, CancelBlueprint(c, p).0, p, Cancelled(p));
    }
  }

  lemma StepKeepsLog(m: Terrain, c: Colony, op: Op)
    requires ValidSites(c) && LogTells(m, c) && !Aliases(c, op)
    ensures LogTells(m, Step(c, op))
  {
    match op
    case Place(tool, p) => PlacementKeepsLog(m, c, tool, p);
    case Cancel(p) => CancelKeepsLog(m, c, p);
    case Work(p, dt) =>
      WorkKeepsLedger(c, p, dt);
      QuietStepKeepsLog(m, c, Step(c, op));
    case Assign(w, x, z) =>
      if Assigned(c.sites, w, x, z).Some? {
        ReserveKeepsLedger(c, w, Assigned(c.sites, w, x, z).value);
        QuietStepKeepsLog(m, c, Step(c, op));
      }
    case Free(w) =>
      ReleaseKeepsLedger(c, w, |c.sites|);
      QuietStepKeepsLog(m, c, Step(c, op));
    case Tick(alive, tick) =>
      UpdateIsWalk(c, alive, tick);
      WalkKeepsLog(m, c, |c.sites|, alive);
  }

  /** Over any run from an empty log: the tiles are the first tiles with the finished blueprints
      applied in order, and every announced blueprint is still standing, or the next thing recorded
      about its tile finishes or cancels it. */
  lemma {:induction false} RunKeepsLog(c: Colony, ops: seq<Op>)
    requires ValidSites(c) && c.log == [] && NeverAliases(c, ops)
    ensures LogTells(c.m, Run(c, ops))
  {
    if ops != [] {
      var front, n := ops[..|ops| - 1], |ops| - 1;
      assert forall i :: 0 <= i < n ==> front[..i] == ops[..i];
      assert NeverAliases(c, front);
      RunKeepsLog(c, front);
      ValidUpTo(c, ops, n);
      assert !Aliases(Run(c, ops[..n]), ops[n]);
      StepKeepsLog(c.m, Run(c, front), ops[n]);
    }
  }
}
