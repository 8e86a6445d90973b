/** The life of one blueprint over whole runs, in seconds and amounts: which placements are accepted,
    what they take, when they are finished and what they leave. */
module BlueprintLife {
  import opened Wrappers
  import opened Tiles
  import opened BuildAdvisor
  import opened Construction
  import opened Ledger
  import opened SiteMirror
  import opened ConstructionRuns

  // ---- what a tool asks for ------------------------------------------------------------------

  /** What a tool makes of a tile, what it takes from the stores and how long it takes. */
  datatype Recipe = Recipe(target: int, wood: real, stone: real, seconds: real)

  /** The game's table, by tile id; None where the tool has no use. */
  function RecipeFor(tool: Tool, was: int): Option<Recipe> {
    match tool
    case Road => if was in {0, 6} then Some(Recipe(1, 1.0, 0.0, 1.5)) else None
    case Farm => if was in {0, 1, 6} then Some(Recipe(2, 3.0, 0.0, 4.0)) else None
    case Lumber => if was in {0, 1, 6} then Some(Recipe(3, 2.0, 0.0, 4.0)) else None
    case Warehouse => if was in {0, 1, 6} then Some(Recipe(4, 6.0, 2.0, 6.0)) else None
    case Wall => if was in {0, 1, 6} then Some(Recipe(5, 2.0, 1.0, 5.0)) else None
    case Quarry => if was in {0, 1, 6} then Some(Recipe(8, 3.0, 1.0, 5.0)) else None
    case Bridge => if was == 7 then Some(Recipe(9, 4.0, 2.0, 5.0)) else None
    case Erase =>
      if was in {1, 2, 3, 4, 5, 6, 8, 9} then
        Some(Recipe(if was == 9 then 7 else 0, 1.0, 0.0, if was == 6 then 1.5 else if was == 5 then 2.5 else 3.0))
      else None
    case UnknownTool(_) => None
  }

  /** Demolishing pays back half of what building took; terrain and ruins pay nothing. */
  lemma SalvageIsHalfPrice(tool: Tool, was: int)
    ensures tool != Erase && RecipeFor(tool, was).Some? ==>
      var recipe := RecipeFor(tool, was).value;
      Salvage(recipe.target) == Resources(0.0, recipe.wood / 2.0, recipe.stone / 2.0)
    ensures was in {0, 6, 7} ==> Salvage(was) == Resources(0.0, 0.0, 0.0)
  {
    hide RecipeFor, BuildCost, ToolTile;
    if tool != Erase && RecipeFor(tool, was).Some? {
      PriceIs(tool, was);
      SalvageIsHalfTheCost(tool, RecipeFor(tool, was).value.target);
      hide Salvage;
    }
  }

  lemma PriceIs(tool: Tool, was: int)
    requires tool != Erase && RecipeFor(tool, was).Some?
    ensures var recipe := RecipeFor(tool, was).value;
      BuildCost(tool) == Resources(0.0, recipe.wood, recipe.stone) && ToolTile(tool) == Some(recipe.target)
  {
  }

  /** The placement is accepted as a blueprint. */
  predicate Accepted(c: Colony, tool: Tool, p: Point)
    requires WellFormed(c.m)
  {
    PlaceToolAt(c, tool, p).1.phase == BlueprintPhase
  }

  predicate Pays(r: Resources, recipe: Recipe) {
    r.wood >= recipe.wood && (recipe.stone > 0.0 ==> r.stone >= recipe.stone)
  }

  /** A placement is accepted exactly on the map, where nothing stands as a blueprint, on a tile the tool
      has a use for, with the wood and the stone for it in store. */
  lemma AcceptedIff(c: Colony, tool: Tool, p: Point)
    requires WellFormed(c.m)
    ensures Accepted(c, tool, p) <==>
      && InBounds(p, c.m) && ToIndex(p, c.m.width) !in c.overlays
      && RecipeFor(tool, TileAt(c.m, p)).Some? && Pays(c.resources, RecipeFor(tool, TileAt(c.m, p)).value)
  {
    hide WellFormed, TileAt, ToIndex, Spend, Refund, Salvage;
  }

  /** The overlay of a blueprint on which nobody has worked yet. */
  function NewBlueprint(tool: Tool, was: int, recipe: Recipe): Overlay {
    Overlay(if tool == Erase then Demolish else Build, tool, recipe.target, was, recipe.seconds, 0.0, None,
            Resources(0.0, recipe.wood, recipe.stone),
            if tool == Erase then Salvage(was) else Resources(0.0, 0.0, 0.0), true)
  }

  /** Then the price leaves the stores, the tile has a blueprint on which no work has been done, and the
      log announces it. */
  lemma AcceptedEffect(c: Colony, tool: Tool, p: Point)
    requires WellFormed(c.m) && Accepted(c, tool, p)
    ensures InBounds(p, c.m) && RecipeFor(tool, TileAt(c.m, p)).Some?
    ensures var recipe, d := RecipeFor(tool, TileAt(c.m, p)).value, PlaceToolAt(c, tool, p).0;
      var k := ToIndex(p, c.m.width);
      && d.m == c.m && d.log == c.log + [Blueprint(p, recipe.target)]
      && d.resources.wood == c.resources.wood - recipe.wood
      && d.resources.stone == c.resources.stone - recipe.stone && d.resources.food == c.resources.food
      && d.overlays == c.overlays[k := NewBlueprint(tool, TileAt(c.m, p), recipe)] && k !in c.overlays
      && d.sites == c.sites + [SiteOf(p, NewBlueprint(tool, TileAt(c.m, p), recipe))]
  {
    hide WellFormed, TileAt, ToIndex, Refund, Salvage;
  }

  /** The first thing that is wrong with a placement is the reason given. */
  function WhyNot(c: Colony, tool: Tool, p: Point): Reason
    requires WellFormed(c.m)
  {
    if !InBounds(p, c.m) then OutOfBounds
    else
      var recipe := RecipeFor(tool, TileAt(c.m, p));
      if tool.UnknownTool? then UnknownToolName
      else if tool == Erase then (if recipe.None? then NotDemolishable else InsufficientResource)
      else if recipe.None? then WrongTerrain
      else if !Pays(c.resources, recipe.value) then InsufficientResource
      else AlreadyUnderConstruction
  }

  /** A placement that is not accepted, and is no erasure of a blueprint, is refused for that reason and
      changes nothing. */
  lemma RefusedEffect(c: Colony, tool: Tool, p: Point)
    requires WellFormed(c.m) && !Accepted(c, tool, p) && !(tool == Erase && ToIndex(p, c.m.width) in c.overlays)
    ensures PlaceToolAt(c, tool, p) == (c, Outcome(false, WhyNot(c, tool, p), Rejected))
  {
    hide WellFormed, TileAt, ToIndex, Spend, Refund, Salvage;
  }

  // ---- what a tick records --------------------------------------------------------------------

  /** The log of a tick: completions of what is done, and nothing else. */
  ghost predicate Tells(c: Colony, d: Colony, n: nat)
    requires n <= |c.sites|
  {
    && c.log <= d.log
    && (forall i :: |c.log| <= i < |d.log| ==> CompletionOf(c, d.log[i]))
    && (forall j :: 0 <= j < n && DoneAt(c, c.sites[j].p) ==>
          exists i :: |c.log| <= i < |d.log| && d.log[i].p == c.sites[j].p)
  }

  ghost predicate DoneAt(c: Colony, p: Point) {
    KeyOf(c, p) in c.overlays && Done(c.overlays[KeyOf(c, p)])
  }

  ghost predicate CompletionOf(c: Colony, e: Event) {
    InBounds(e.p, c.m) && DoneAt(c, e.p) && e == Finished(e.p, c.overlays[KeyOf(c, e.p)].target)
  }

  lemma VisitTells(c: Colony, i: nat, alive: set<WorkerId>)
    requires ValidSites(c) && i < |c.sites|
    ensures var d, p := Visit(c, i, alive), c.sites[i].p;
      && d.log == (if DoneAt(c, p) then c.log + [Finished(p, c.overlays[KeyOf(c, p)].target)] else c.log)
      && InBounds(p, c.m) && !DoneAt(d, p)
      && (forall q :: InBounds(q, c.m) && q != p ==> OverlayAt(d, q) == OverlayAt(c, q))
  {
    var p := c.sites[i].p;
    assert SiteOk(c, i);
    forall q | InBounds(q, c.m) && q != p ensures KeyOf(c, q) != KeyOf(c, p) {
      if KeyOf(c, q) == KeyOf(c, p) { SamePlace(c, q, p); }
    }
    hide ToIndex, WellFormed, Mirror, Exclusive, FitsTile;
  }

  lemma {:induction false} WalkTells(c: Colony, n: nat, alive: set<WorkerId>)
    requires ValidSites(c) && n <= |c.sites|
    ensures Tells(c, Walk(c, n, alive), n)
    decreases n
  {
    if n > 0 {
      var d := Visit(c, n - 1, alive);
      VisitKeepsMirror(c, n - 1, alive);
      VisitSettlesOne(c, n - 1, alive, 0);
      VisitTells(c, n - 1, alive);
      WalkTells(d, n - 1, alive);
      OthersKeepOverlays(c, n, alive);
      MoreTold(c, d, Walk(d, n - 1, alive), n);
    }
  }

  /** One visit, and a walk over the sites before it. */
  lemma MoreTold(c: Colony, d: Colony, e: Colony, n: nat)
    requires 0 < n <= |c.sites| && n - 1 <= |d.sites| && d.sites[..n - 1] == c.sites[..n - 1] && Tells(d, e, n - 1)
    requires d.m.width == c.m.width && d.m.height == c.m.height && InBounds(c.sites[n - 1].p, c.m)
    requires var p := c.sites[n - 1].p;
      && d.log == (if DoneAt(c, p) then c.log + [Finished(p, c.overlays[KeyOf(c, p)].target)] else c.log)
      && !DoneAt(d, p) && (forall q :: InBounds(q, c.m) && q != p ==> OverlayAt(d, q) == OverlayAt(c, q))
    requires forall j :: 0 <= j < n - 1 ==> OverlayAt(c, c.sites[j].p) == OverlayAt(d, c.sites[j].p)
    ensures Tells(c, e, n)
  {
    var p := c.sites[n - 1].p;
    hide Done, ToIndex;
    assert DoneAt(c, p) ==> e.log[|c.log|] == d.log[|c.log|];
    forall i | |c.log| <= i < |e.log| ensures CompletionOf(c, e.log[i]) {
      if i >= |d.log| {
        assert CompletionOf(d, e.log[i]);
        assert OverlayAt(d, e.log[i].p) == OverlayAt(c, e.log[i].p);
      }
    }
    forall j | 0 <= j < n && DoneAt(c, c.sites[j].p)
      ensures exists i :: |c.log| <= i < |e.log| && e.log[i].p == c.sites[j].p
    {
      if j < n - 1 {
        assert d.sites[j] == d.sites[..n - 1][j] == c.sites[..n - 1][j] == c.sites[j];
        var i :| |d.log| <= i < |e.log| && e.log[i].p == c.sites[j].p;
      } else {
        assert e.log[|c.log|].p == p;
      }
    }
  }

  /** Something is recorded about p between two states. */
  ghost predicate Mentions(log: seq<Event>, from: nat, p: Point) {
    exists i :: from <= i < |log| && log[i].p == p
  }

  /** A tick records something about a tile exactly if its blueprint is done, namely its completion. */
  lemma TickMentionsIff(c: Colony, alive: set<WorkerId>, tick: int, p: Point)
    requires ValidSites(c) && InBounds(p, c.m)
    ensures var d := Update(c, alive, tick);
      && c.log <= d.log && (Mentions(d.log, |c.log|, p) <==> DoneAt(c, p))
      && (forall i :: |c.log| <= i < |d.log| ==> CompletionOf(c, d.log[i]))
  {
    UpdateIsWalk(c, alive, tick);
    WalkTells(c, |c.sites|, alive);
    var d := Update(c, alive, tick);
    if DoneAt(c, p) {
      assert HasSite(c, KeyOf(c, p));
      var j :| 0 <= j < |c.sites| && KeyOf(c, c.sites[j].p) == KeyOf(c, p);
      assert SiteOk(c, j);
      SamePlace(c, c.sites[j].p, p);
    }
    hide Update, Walk, Done, Mirror, Exclusive;
    if Mentions(d.log, |c.log|, p) {
      var i :| |c.log| <= i < |d.log| && d.log[i].p == p;
      assert CompletionOf(c, d.log[i]);
    }
  }

  // ---- work between two moments ------------------------------------------------------------------

  /** The seconds of work that the operations give to a tile; negative times count as none. */
  function WorkOn(ops: seq<Op>, p: Point): real {
    if ops == [] then 0.0
    else
      var op := ops[|ops| - 1];
      WorkOn(ops[..|ops| - 1], p) + (if op.Work? && op.p == p && op.dt > 0.0 then op.dt else 0.0)
  }

  /** The blueprint of a recipe stands on p with so much work done on it. */
  predicate StandsAt(c: Colony, p: Point, recipe: Recipe, work: real) {
    && KeyOf(c, p) in c.overlays
    && var o := c.overlays[KeyOf(c, p)];
       o.target == recipe.target && o.workTotal == recipe.seconds && o.workApplied == work
  }

  /** Whatever happens, as long as nothing is recorded about it, a blueprint stands, its tile does not
      change, and only work on its tile is added to it. */
  lemma StepOnTile(c: Colony, op: Op, p: Point, recipe: Recipe, work: real)
    requires ValidSites(c) && !Aliases(c, op) && InBounds(p, c.m) && StandsAt(c, p, recipe, work) && work >= 0.0
    requires !Mentions(Step(c, op).log, |c.log|, p)
    ensures var d := Step(c, op);
      && c.log <= d.log && TileAt(d.m, p) == TileAt(c.m, p)
      && StandsAt(d, p, recipe, work + (if op.Work? && op.p == p && op.dt > 0.0 then op.dt else 0.0))
  {
    var d, k := Step(c, op), KeyOf(c, p);
    hide FitsTile, Mirror, Exclusive;
    match op
    case Place(tool, q) =>
      OtherPlacement(c, tool, q, p);
    case Cancel(q) =>
      OtherCancel(c, q, p);
    case Work(q, dt) =>
      if InBounds(q, c.m) && KeyOf(c, q) == k { SamePlace(c, q, p); }
    case Assign(w, x, z) =>
      if Assigned(c.sites, w, x, z).Some? { ReserveKeepsWork(c, w, Assigned(c.sites, w, x, z).value); }
    case Free(w) =>
      ReleaseKeepsWork(c, w, |c.sites|);
    case Tick(alive, tick) =>
      TickMentionsIff(c, alive, tick, p);
      UpdateSettlesAll(c, alive, tick);
      PointOfIndexOfPoint(p, c.m);
      assert Settled(c, d, k, alive);
  }

  lemma OtherCancel(c: Colony, q: Point, p: Point)
    requires WellFormed(c.m) && InBounds(p, c.m) && KeyOf(c, p) in c.overlays && !Strikes(c, q)
    ensures var d := CancelBlueprint(c, q).0;
      && c.log <= d.log && d.m == c.m
      && (Mentions(d.log, |c.log|, p)
          || (KeyOf(c, p) in d.overlays && d.overlays[KeyOf(c, p)] == c.overlays[KeyOf(c, p)]))
  {
    var d := CancelBlueprint(c, q).0;
    if CancelBlueprint(c, q).1.ok && KeyOf(c, q) == KeyOf(c, p) {
      SamePlace(c, q, p);
      assert d.log[|c.log|].p == p;
    }
  }

  lemma OtherPlacement(c: Colony, tool: Tool, q: Point, p: Point)
    requires WellFormed(c.m) && InBounds(p, c.m) && KeyOf(c, p) in c.overlays && !(tool == Erase && Strikes(c, q))
    ensures var d := PlaceToolAt(c, tool, q).0;
      && c.log <= d.log && d.m == c.m
      && (Mentions(d.log, |c.log|, p)
          || (KeyOf(c, p) in d.overlays && d.overlays[KeyOf(c, p)] == c.overlays[KeyOf(c, p)]))
  {
    if tool == Erase && ToIndex(q, c.m.width) in c.overlays {
      OtherCancel(c, q, p);
    } else if Accepted(c, tool, q) {
      AcceptedEffect(c, tool, q);
      AcceptedIff(c, tool, q);
      hide PlaceToolAt, RecipeFor;
    } else {
      RefusedEffect(c, tool, q);
      hide PlaceToolAt, RecipeFor;
    }
  }

  /** The overlays but for their builders. */
  ghost predicate SameWork(c: Colony, d: Colony) {
    && d.m == c.m && d.log == c.log && d.overlays.Keys == c.overlays.Keys
    && forall k :: k in c.overlays ==> d.overlays[k] == c.overlays[k].(builder := d.overlays[k].builder)
  }

  lemma ReserveKeepsWork(c: Colony, w: Option<WorkerId>, i: nat)
    requires i < |c.sites|
    ensures SameWork(c, Reserve(c, w, i))
  {
  }

  lemma {:induction false} ReleaseKeepsWork(c: Colony, w: Option<WorkerId>, n: nat)
    requires n <= |c.sites|
    ensures SameWork(c, Release(c, w, n))
  {
    if n > 0 { ReleaseKeepsWork(c, w, n - 1); }
  }

  // ---- over every run ---------------------------------------------------------------------------

  /** Operation n places a blueprint on p. */
  predicate Announces(c: Colony, ops: seq<Op>, n: nat, p: Point)
    requires WellFormed(c.m) && c.m.width > 0
  {
    n < |ops| && ops[n].Place? && ops[n].p == p && Accepted(Run(c, ops[..n]), ops[n].tool, p)
  }

  /** What operation n asks for on p, going by the tile it finds there. */
  function Ordered(c: Colony, ops: seq<Op>, n: nat, p: Point): Recipe
    requires WellFormed(c.m) && c.m.width > 0 && Announces(c, ops, n, p)
  {
    var before := Run(c, ops[..n]);
    AcceptedIff(before, ops[n].tool, p);
    RecipeFor(ops[n].tool, TileAt(before.m, p)).value
  }

  function WasAt(c: Colony, ops: seq<Op>, n: nat, p: Point): int
    requires WellFormed(c.m) && c.m.width > 0 && Announces(c, ops, n, p)
  {
    AcceptedIff(Run(c, ops[..n]), ops[n].tool, p);
    TileAt(Run(c, ops[..n]).m, p)
  }

  /** Since operation n announced a blueprint on p, the log has not mentioned p again by moment m. */
  ghost predicate StandsSince(c: Colony, ops: seq<Op>, n: nat, m: nat, p: Point)
    requires WellFormed(c.m) && c.m.width > 0
  {
    n < m <= |ops| && Announces(c, ops, n, p) && !Mentions(Run(c, ops[..m]).log, |Run(c, ops[..n + 1]).log|, p)
  }

  lemma {:induction false} WorkIsNotNegative(ops: seq<Op>, p: Point)
    ensures WorkOn(ops, p) >= 0.0
  {
    if ops != [] { WorkIsNotNegative(ops[..|ops| - 1], p); }
  }

  lemma OneMoreWork(ops: seq<Op>, n: nat, m: nat, p: Point)
    requires n < m <= |ops|
    ensures var op := ops[m - 1];
      WorkOn(ops[n..m], p) == WorkOn(ops[n..m - 1], p) + (if op.Work? && op.p == p && op.dt > 0.0 then op.dt else 0.0)
  {
    assert ops[n..m][..m - n - 1] == ops[n..m - 1];
  }

  /** The same, on a tile that is still what it was. */
  ghost predicate StandsOn(c: Colony, p: Point, was: int, recipe: Recipe, work: real) {
    WellFormed(c.m) && InBounds(p, c.m) && TileAt(c.m, p) == was && StandsAt(c, p, recipe, work)
  }

  lemma StepOnTileAgain(c: Colony, op: Op, p: Point, was: int, recipe: Recipe, work: real)
    requires ValidSites(c) && !Aliases(c, op) && StandsOn(c, p, was, recipe, work) && work >= 0.0
    requires !Mentions(Step(c, op).log, |c.log|, p)
    ensures StandsOn(Step(c, op), p, was, recipe, work + (if op.Work? && op.p == p && op.dt > 0.0 then op.dt else 0.0))
  {
    StepOnTile(c, op, p, recipe, work);
    hide ValidSites, Aliases, Step, StandsAt, TileAt, WellFormed;
  }

  lemma AcceptedStands(c: Colony, tool: Tool, p: Point)
    requires WellFormed(c.m) && Accepted(c, tool, p)
    ensures InBounds(p, c.m) && RecipeFor(tool, TileAt(c.m, p)).Some?
    ensures StandsOn(PlaceToolAt(c, tool, p).0, p, TileAt(c.m, p), RecipeFor(tool, TileAt(c.m, p)).value, 0.0)
  {
    AcceptedEffect(c, tool, p);
    hide PlaceToolAt, RecipeFor, TileAt, WellFormed;
  }

  /** By then the blueprint stands, with exactly the work that was given to its tile in between. */
  lemma {:induction false} WorkAddsUp(c: Colony, ops: seq<Op>, n: nat, m: nat, p: Point)
    requires ValidSites(c) && NeverAliases(c, ops) && StandsSince(c, ops, n, m, p)
    ensures StandsOn(Run(c, ops[..m]), p, WasAt(c, ops, n, p), Ordered(c, ops, n, p), WorkOn(ops[n + 1..m], p))
    decreases m
  {
    hide ValidSites, WellFormed, Aliases, Step, StandsOn, StandsSince, Ordered, WasAt, Mentions, NeverAliases, Run,
      Announces;
    StandsMeans(c, ops, n, m, p);
    if m == n + 1 {
      JustAnnounced(c, ops, n, p);
    } else {
      StandsBefore(c, ops, n, m, p);
      WorkAddsUp(c, ops, n, m - 1, p);
      WorkIsNotNegative(ops[n + 1..m - 1], p);
      OneMoreWork(ops, n + 1, m, p);
      ValidUpTo(c, ops, m - 1);
      RunStep(c, ops, m - 1);
      NotAliasedAt(c, ops, m - 1);
      StepOnTileAgain(Run(c, ops[..m - 1]), ops[m - 1], p, WasAt(c, ops, n, p), Ordered(c, ops, n, p),
                      WorkOn(ops[n + 1..m - 1], p));
    }
  }

  lemma ValidMeans(c: Colony)
    requires ValidSites(c)
    ensures WellFormed(c.m) && c.m.width > 0
  {
  }

  lemma StandsMeans(c: Colony, ops: seq<Op>, n: nat, m: nat, p: Point)
    requires ValidSites(c) && StandsSince(c, ops, n, m, p)
    ensures WellFormed(c.m) && c.m.width > 0 && n < m <= |ops| && Announces(c, ops, n, p)
  {
  }

  lemma NotAliasedAt(c: Colony, ops: seq<Op>, k: nat)
    requires WellFormed(c.m) && c.m.width > 0 && NeverAliases(c, ops) && k < |ops|
    ensures !Aliases(Run(c, ops[..k]), ops[k])
  {
  }

  lemma JustAnnounced(c: Colony, ops: seq<Op>, n: nat, p: Point)
    requires WellFormed(c.m) && c.m.width > 0 && Announces(c, ops, n, p)
    ensures StandsOn(Run(c, ops[..n + 1]), p, WasAt(c, ops, n, p), Ordered(c, ops, n, p), WorkOn(ops[n + 1..n + 1], p))
  {
    RunStep(c, ops, n);
    AcceptedStands(Run(c, ops[..n]), ops[n].tool, p);
    assert ops[n + 1..n + 1] == [];
    hide Accepted, RecipeFor, TileAt, PlaceToolAt, StandsOn, WellFormed, Run;
  }

  lemma StandsBefore(c: Colony, ops: seq<Op>, n: nat, m: nat, p: Point)
    requires WellFormed(c.m) && c.m.width > 0 && StandsSince(c, ops, n, m, p) && m > n + 1
    ensures StandsSince(c, ops, n, m - 1, p)
    ensures !Mentions(Step(Run(c, ops[..m - 1]), ops[m - 1]).log, |Run(c, ops[..m - 1]).log|, p)
  {
    hide Announces, Run, Step, WellFormed;
    RunStep(c, ops, m - 1);
    StepGrowsLog(Run(c, ops[..m - 1]), ops[m - 1]);
    RunGrowsLog(c, ops, n + 1, m - 1);
  }

  lemma {:induction false} RunGrowsLog(c: Colony, ops: seq<Op>, n: nat, m: nat)
    requires WellFormed(c.m) && c.m.width > 0 && n <= m <= |ops|
    ensures Run(c, ops[..n]).log <= Run(c, ops[..m]).log
    decreases m
  {
    hide WellFormed, Run, Step;
    if n < m {
      RunGrowsLog(c, ops, n, m - 1);
      RunStep(c, ops, m - 1);
      StepGrowsLog(Run(c, ops[..m - 1]), ops[m - 1]);
    }
  }

  /** The blueprint has been finished between two states: the tile is what was asked for, and the overlay
      is gone. */
  ghost predicate FinishedAt(before: Colony, after: Colony, p: Point, recipe: Recipe) {
    && before.log <= after.log && WellFormed(after.m) && InBounds(p, after.m)
    && Finished(p, recipe.target) in after.log[|before.log|..]
    && TileAt(after.m, p) == recipe.target && ToIndex(p, after.m.width) !in after.overlays
  }

  /** Nothing is recorded, the tile is as it was and the blueprint stands. */
  ghost predicate WaitsAt(before: Colony, after: Colony, p: Point, recipe: Recipe, work: real) {
    && before.log <= after.log && WellFormed(before.m) && WellFormed(after.m)
    && InBounds(p, before.m) && InBounds(p, after.m)
    && !Mentions(after.log, |before.log|, p)
    && TileAt(after.m, p) == TileAt(before.m, p) && StandsAt(after, p, recipe, work)
  }

  lemma TickOnTile(c: Colony, alive: set<WorkerId>, tick: int, p: Point, recipe: Recipe, work: real)
    requires ValidSites(c) && InBounds(p, c.m) && StandsAt(c, p, recipe, work)
    requires 0 <= recipe.target < 256 && recipe.seconds > 0.0
    ensures var d := Update(c, alive, tick);
      if work >= recipe.seconds then FinishedAt(c, d, p, recipe) else WaitsAt(c, d, p, recipe, work)
  {
    var d, k := Update(c, alive, tick), KeyOf(c, p);
    TickMentionsIff(c, alive, tick, p);
    UpdateSettlesAll(c, alive, tick);
    PointOfIndexOfPoint(p, c.m);
    SameMapSize(c, alive, tick);
    assert Settled(c, d, k, alive);
    hide ValidSites, Update, ToIndex;
    if DoneAt(c, p) {
      var i :| |c.log| <= i < |d.log| && d.log[i].p == p;
      assert CompletionOf(c, d.log[i]);
      assert d.log[|c.log|..][i - |c.log|] == d.log[i];
    }
  }

  lemma SameMapSize(c: Colony, alive: set<WorkerId>, tick: int)
    requires WellFormed(c.m) && c.m.width > 0
    ensures var d := Update(c, alive, tick);
      WellFormed(d.m) && d.m.width == c.m.width && d.m.height == c.m.height
  {
  }

  /** The next tick finishes a standing blueprint if and only if the work given to its tile since it was
      announced comes to the seconds it takes. */
  lemma FinishedIffWorked(c: Colony, ops: seq<Op>, n: nat, p: Point, alive: set<WorkerId>, tick: int)
    requires ValidSites(c) && NeverAliases(c, ops) && StandsSince(c, ops, n, |ops|, p)
    ensures var before, recipe, work := Run(c, ops), Ordered(c, ops, n, p), WorkOn(ops[n + 1..], p);
      var after := Update(before, alive, tick);
      if work >= recipe.seconds then FinishedAt(before, after, p, recipe)
      else WaitsAt(before, after, p, recipe, work)
  {
    var before := Run(c, ops);
    assert ops[..|ops|] == ops && ops[n + 1..|ops|] == ops[n + 1..];
    WorkAddsUp(c, ops, n, |ops|, p);
    ValidUpTo(c, ops, |ops|);
    AcceptedIff(Run(c, ops[..n]), ops[n].tool, p);
    TargetIsTile(ops[n].tool, TileAt(Run(c, ops[..n]).m, p));
    var recipe := Ordered(c, ops, n, p);
    hide ValidSites, NeverAliases, Accepted, RecipeFor, Update, Run, FinishedAt, WaitsAt, StandsAt, TileAt, WellFormed;
    TickOnTile(before, alive, tick, p, recipe, WorkOn(ops[n + 1..], p));
  }

  lemma TargetIsTile(tool: Tool, was: int)
    requires RecipeFor(tool, was).Some?
    ensures 0 <= RecipeFor(tool, was).value.target < 256 && RecipeFor(tool, was).value.seconds > 0.0
  {
  }

  // ---- every completion was worked for -----------------------------------------------------------

  /** Every overlay of a run that starts without any has its announcement. */
  lemma {:induction false} StandingWasAnnounced(c: Colony, ops: seq<Op>, p: Point) returns (n: nat)
    requires ValidSites(c) && NeverAliases(c, ops) && c.overlays == map[]
    requires InBounds(p, c.m) && ToIndex(p, c.m.width) in Run(c, ops).overlays
    ensures StandsSince(c, ops, n, |ops|, p)
  {
    hide ValidSites, Aliases, Accepted, Step, StandsSince, Mentions, ToIndex, WellFormed, NeverAliases;
    ValidMeans(c);
    assert ops != [];
    var m := |ops| - 1;
    var front, op := ops[..m], ops[m];
    var before := Run(c, front);
    LastStep(c, ops);
    if op.Place? && op.p == p && Accepted(before, op.tool, p) {
      n := m;
      JustPlaced(c, ops, p);
    } else {
      BeforeLast(c, ops);
      NoNewOverlay(before, op, p);
      n := StandingWasAnnounced(c, front, p);
      StillStands(c, ops, n, p);
    }
  }

  lemma LastStep(c: Colony, ops: seq<Op>)
    requires WellFormed(c.m) && c.m.width > 0 && ops != []
    ensures var before := Run(c, ops[..|ops| - 1]);
      Run(c, ops) == Step(before, ops[|ops| - 1]) && before.log <= Run(c, ops).log
  {
    StepGrowsLog(Run(c, ops[..|ops| - 1]), ops[|ops| - 1]);
  }

  lemma BeforeLast(c: Colony, ops: seq<Op>)
    requires ValidSites(c) && NeverAliases(c, ops) && ops != []
    ensures var front := ops[..|ops| - 1];
      NeverAliases(c, front) && ValidSites(Run(c, front)) && !Aliases(Run(c, front), ops[|ops| - 1])
  {
    var front := ops[..|ops| - 1];
    NeverAliasesBefore(c, ops, |ops| - 1);
    ValidUpTo(c, front, |front|);
    assert front[..|front|] == front;
  }

  lemma JustPlaced(c: Colony, ops: seq<Op>, p: Point)
    requires WellFormed(c.m) && c.m.width > 0 && ops != []
    requires var op := ops[|ops| - 1]; op.Place? && op.p == p && Accepted(Run(c, ops[..|ops| - 1]), op.tool, p)
    ensures StandsSince(c, ops, |ops| - 1, |ops|, p)
  {
    hide Accepted, Run, WellFormed;
    assert ops[..|ops|] == ops;
  }

  lemma NeverAliasesBefore(c: Colony, ops: seq<Op>, m: nat)
    requires WellFormed(c.m) && c.m.width > 0 && NeverAliases(c, ops) && m <= |ops|
    ensures NeverAliases(c, ops[..m])
  {
    assert forall n :: 0 <= n < m ==> ops[..m][..n] == ops[..n];
  }

  /** An overlay that stands after an operation stood before it, and the operation did not mention it,
      unless the operation placed it. */
  lemma NoNewOverlay(c: Colony, op: Op, p: Point)
    requires ValidSites(c) && !Aliases(c, op) && InBounds(p, c.m) && KeyOf(c, p) in Step(c, op).overlays
    requires !(op.Place? && op.p == p && Accepted(c, op.tool, p))
    ensures KeyOf(c, p) in c.overlays && !Mentions(Step(c, op).log, |c.log|, p)
  {
    hide FitsTile, Mirror, Exclusive;
    match op
    case Place(tool, q) =>
      if tool == Erase && ToIndex(q, c.m.width) in c.overlays {
      } else if Accepted(c, tool, q) {
        AcceptedEffect(c, tool, q);
        if KeyOf(c, q) == KeyOf(c, p) { SamePlace(c, q, p); }
        hide PlaceToolAt, RecipeFor;
      } else {
        RefusedEffect(c, tool, q);
        hide PlaceToolAt, RecipeFor;
      }
    case Cancel(q) =>
    case Work(q, dt) =>
    case Assign(w, x, z) =>
      if Assigned(c.sites, w, x, z).Some? { ReserveKeepsWork(c, w, Assigned(c.sites, w, x, z).value); }
    case Free(w) =>
      ReleaseKeepsWork(c, w, |c.sites|);
    case Tick(alive, tick) =>
      TickMentionsIff(c, alive, tick, p);
      UpdateSettlesAll(c, alive, tick);
      PointOfIndexOfPoint(p, c.m);
      assert Settled(c, Update(c, alive, tick), KeyOf(c, p), alive);
  }

  lemma StillStands(c: Colony, ops: seq<Op>, n: nat, p: Point)
    requires WellFormed(c.m) && c.m.width > 0 && |ops| > 0
    requires StandsSince(c, ops[..|ops| - 1], n, |ops| - 1, p)
    requires var before := Run(c, ops[..|ops| - 1]);
      before.log <= Run(c, ops).log && !Mentions(Run(c, ops).log, |before.log|, p)
    ensures StandsSince(c, ops, n, |ops|, p)
  {
    hide Accepted, Run, WellFormed;
    var front := ops[..|ops| - 1];
    assert front[..n] == ops[..n] && front[..n + 1] == ops[..n + 1] && front[..|front|] == front && ops[..|ops|] == ops;
  }

  /** No completion without work: over a run that starts without blueprints, each was announced by a
      placement, and the work given to its tile between that and the tick that finished it comes to the
      seconds it takes. */
  lemma {:induction false} FinishedWasWorked(c: Colony, ops: seq<Op>, b: nat) returns (n: nat, m: nat)
    requires ValidSites(c) && NeverAliases(c, ops) && c.overlays == map[] && c.log == []
    requires b < |Run(c, ops).log| && Run(c, ops).log[b].Finished?
    ensures var e := Run(c, ops).log[b];
      && m < |ops| && ops[m].Tick? && StandsSince(c, ops, n, m, e.p)
      && |Run(c, ops[..m]).log| <= b < |Run(c, ops[..m + 1]).log|
      && e.target == Ordered(c, ops, n, e.p).target
      && WorkOn(ops[n + 1..m], e.p) >= Ordered(c, ops, n, e.p).seconds
  {
    hide ValidSites, NeverAliases, Aliases, Step, StandsSince, Mentions, WellFormed, Ordered, FinishedAt, WaitsAt;
    ValidMeans(c);
    assert ops != [];
    m := |ops| - 1;
    var front, e := ops[..m], Run(c, ops).log[b];
    assert ops[..m + 1] == ops;
    LastStep(c, ops);
    BeforeLast(c, ops);
    if b < |Run(c, front).log| {
      n, m := FinishedWasWorked(c, front, b);
      SamePrefix(c, ops, n, m, e.p);
    } else {
      n := LastFinishWasWorked(c, ops, b);
    }
  }

  lemma LastFinishWasWorked(c: Colony, ops: seq<Op>, b: nat) returns (n: nat)
    requires ValidSites(c) && NeverAliases(c, ops) && c.overlays == map[] && ops != []
    requires |Run(c, ops[..|ops| - 1]).log| <= b < |Run(c, ops).log| && Run(c, ops).log[b].Finished?
    ensures var e, m := Run(c, ops).log[b], |ops| - 1;
      && ops[m].Tick? && StandsSince(c, ops, n, m, e.p)
      && e.target == Ordered(c, ops, n, e.p).target
      && WorkOn(ops[n + 1..m], e.p) >= Ordered(c, ops, n, e.p).seconds
  {
    hide ValidSites, NeverAliases, Aliases, StandsSince, WellFormed, Ordered, Run, WasAt, TileAt, Update, Step,
      CompletionOf, FinishedAt, WaitsAt, StandsOn, Mentions, ToIndex;
    ValidMeans(c);
    var m := |ops| - 1;
    var front, op, e := ops[..m], ops[m], Run(c, ops).log[b];
    var before := Run(c, front);
    LastStep(c, ops);
    BeforeLast(c, ops);
    OnlyTicksFinish(before, op, b);
    CompletionMeans(before, e);
    n := StandingWasAnnounced(c, front, e.p);
    StandsMeans(c, front, n, |front|, e.p);
    assert front[..|front|] == front && front[n + 1..|front|] == front[n + 1..];
    WorkAddsUp(c, front, n, |front|, e.p);
    FinishedIffWorked(c, front, n, e.p, op.alive, op.tick);
    TickIsUpdate(before, op);
    CompletionDecides(before, Run(c, ops), b, e, WasAt(c, front, n, e.p), Ordered(c, front, n, e.p),
                      WorkOn(front[n + 1..], e.p));
    SamePrefix(c, ops, n, m, e.p);
  }

  lemma CompletionMeans(c: Colony, e: Event)
    requires CompletionOf(c, e)
    ensures InBounds(e.p, c.m) && ToIndex(e.p, c.m.width) in c.overlays
  {
  }

  lemma CompletionDecides(before: Colony, after: Colony, b: nat, e: Event, was: int, recipe: Recipe, work: real)
    requires |before.log| <= b < |after.log| && after.log[b] == e && CompletionOf(before, e)
    requires StandsOn(before, e.p, was, recipe, work)
    requires if work >= recipe.seconds then FinishedAt(before, after, e.p, recipe)
             else WaitsAt(before, after, e.p, recipe, work)
    ensures work >= recipe.seconds && e.target == recipe.target
  {
    assert Mentions(after.log, |before.log|, e.p);
    hide WellFormed, TileAt, Done, Mentions;
  }

  lemma TickIsUpdate(c: Colony, op: Op)
    requires WellFormed(c.m) && c.m.width > 0 && op.Tick?
    ensures Step(c, op) == Update(c, op.alive, op.tick)
  {
  }

  lemma OnlyTicksFinish(c: Colony, op: Op, b: nat)
    requires ValidSites(c) && |c.log| <= b < |Step(c, op).log| && Step(c, op).log[b].Finished?
    ensures op.Tick? && CompletionOf(c, Step(c, op).log[b])
  {
    hide FitsTile, Exclusive;
    match op
    case Tick(alive, tick) =>
      UpdateIsWalk(c, alive, tick);
      WalkTells(c, |c.sites|, alive);
    case Assign(w, x, z) =>
      if Assigned(c.sites, w, x, z).Some? { ReserveKeepsWork(c, w, Assigned(c.sites, w, x, z).value); }
    case _ =>
  }

  lemma SamePrefix(c: Colony, ops: seq<Op>, n: nat, m: nat, p: Point)
    requires WellFormed(c.m) && c.m.width > 0 && m < |ops| && StandsSince(c, ops[..|ops| - 1], n, m, p)
    ensures StandsSince(c, ops, n, m, p)
    ensures Ordered(c, ops, n, p) == Ordered(c, ops[..|ops| - 1], n, p)
    ensures ops[..|ops| - 1][..m] == ops[..m] && ops[..|ops| - 1][n + 1..m] == ops[n + 1..m]
    ensures m < |ops| - 1 ==> ops[..|ops| - 1][..m + 1] == ops[..m + 1] && ops[..|ops| - 1][m] == ops[m]
  {
    hide Accepted, Run, WellFormed;
    var front := ops[..|ops| - 1];
    assert front[..n] == ops[..n] && front[..n + 1] == ops[..n + 1] && front[..m] == ops[..m];
  }
}
