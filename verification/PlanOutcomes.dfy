/** What the plan executor's statuses mean: every submission announces the blueprint its step asks for,
    and a step counted complete has had it carried out, unless it was cancelled. */
module PlanOutcomes {
  import opened Wrappers
  import opened Tiles
  import opened BuildAdvisor
  import opened Construction
  import opened SiteMirror
  import opened ConstructionRuns
  import opened PlanSteps

  // ---- what completion means ---------------------------------------------------------------------

  /** What a tool is to make of a tile. */
  predicate Makes(tool: Tool, was: int, target: int) {
    if tool == Erase then target == (if was == BRIDGE then WATER else GRASS) else ToolTile(tool) == Some(target)
  }

  /** The tile of the event at a, as it was just before. */
  function TileBefore(m0: Terrain, log: seq<Event>, a: nat): int
    requires WellFormed(m0) && a < |log| && InBounds(log[a].p, m0)
  {
    TileAt(Replay(m0, log[..a]), log[a].p)
  }

  /** The event at a announces the blueprint of what the step asks for, where it asks for it. */
  ghost predicate Orders(m0: Terrain, log: seq<Event>, a: nat, step: PlanStep)
    requires WellFormed(m0)
  {
    && a < |log| && log[a].Blueprint? && InBounds(log[a].p, m0)
    && step.p == log[a].p && Makes(step.tool, TileBefore(m0, log, a), log[a].target)
  }

  /** The submission announced its step's blueprint; once the step counts as complete, something has
      happened to that blueprint. */
  ghost predicate Accounted(m0: Terrain, s: Session, i: nat)
    requires WellFormed(m0) && i < |s.subs|
  {
    var a := s.subs[i].at;
    && (exists n :: 0 <= n < |s.e.plan| && s.e.plan[n].id == s.subs[i].id && Orders(m0, s.c.log, a, s.e.plan[n]))
    && (StatusOf(s.e, s.subs[i].id) == Complete ==> !Quiet(s.c.log, a))
  }

  ghost predicate InTime(subs: seq<Submission>, log: seq<Event>) {
    && (forall i :: 0 <= i < |subs| ==> subs[i].at < |log|)
    && forall i, j :: 0 <= i < j < |subs| ==> subs[i].at < subs[j].at
  }

  /** Everything a run keeps about the plan and the colony together; m0 is the map at the start. */
  ghost predicate Sound(m0: Terrain, s: Session) {
    && InOrder(s) && ValidSites(s.c) && LogTells(m0, s.c) && SameShape(m0, s.c.m) && InTime(s.subs, s.c.log)
    && forall i :: 0 <= i < |s.subs| ==> Accounted(m0, s, i)
  }

  predicate SameShape(m: Terrain, m': Terrain) {
    m.width == m'.width && m.height == m'.height
  }

  lemma GrowthKeepsOrders(m0: Terrain, log: seq<Event>, more: seq<Event>, a: nat, step: PlanStep)
    requires WellFormed(m0) && Orders(m0, log, a, step)
    ensures Orders(m0, log + more, a, step)
    ensures !Quiet(log, a) ==> !Quiet(log + more, a)
  {
    assert (log + more)[..a] == log[..a];
    if !Quiet(log, a) {
      var b :| a < b < |log| && log[b].p == log[a].p;
      assert (log + more)[b].p == (log + more)[a].p;
    }
  }

  /** A log that only grows keeps every submission accounted for. */
  lemma GrowthKeepsAccounts(m0: Terrain, s: Session, t: Session, i: nat)
    requires WellFormed(m0) && i < |s.subs| && Accounted(m0, s, i) && i < |t.subs| && t.subs[i] == s.subs[i]
    requires t.e.plan == s.e.plan && s.c.log <= t.c.log
    requires StatusOf(t.e, s.subs[i].id) == Complete ==> StatusOf(s.e, s.subs[i].id) == Complete
    ensures Accounted(m0, t, i)
  {
    var a := s.subs[i].at;
    var more := t.c.log[|s.c.log|..];
    assert t.c.log == s.c.log + more;
    var n :| 0 <= n < |s.e.plan| && s.e.plan[n].id == s.subs[i].id && Orders(m0, s.c.log, a, s.e.plan[n]);
    GrowthKeepsOrders(m0, s.c.log, more, a, s.e.plan[n]);
    hide Orders, Quiet;
  }

  lemma NoSiteMeansOver(m0: Terrain, c: Colony, a: nat)
    requires ValidSites(c) && LogTells(m0, c) && a < |c.log| && c.log[a].Blueprint?
    requires c.log[a].p !in ActivePlaces(c.sites)
    ensures !Quiet(c.log, a)
  {
    var p := c.log[a].p;
    assert Told(c, a);
    forall j | 0 <= j < |c.sites| ensures c.sites[j].p != p {
      assert c.sites[j] in c.sites;
    }
    if KeyOf(c, p) in c.overlays { FindsSite(c, p); }
  }

  lemma {:induction false} RefreshPromotes(e: Executor, active: set<Point>, n: nat, k: nat)
    requires n <= |e.plan| && UniqueIds(e.plan) && k < |e.plan|
    requires StatusOf(e, e.plan[k].id) != Complete && StatusOf(Refresh(e, active, n), e.plan[k].id) == Complete
    ensures e.plan[k].p !in active
  {
    if n > 0 && n - 1 != k {
      RefreshPromotes(e, active, n - 1, k);
    } else if n > 0 {
      if StatusOf(Refresh(e, active, n - 1), e.plan[k].id) == Complete { RefreshPromotes(e, active, n - 1, k); }
    }
  }

  lemma RefreshKeepsSound(m0: Terrain, s: Session)
    requires Sound(m0, s)
    ensures Sound(m0, s.(e := Refresh(s.e, ActivePlaces(s.c.sites), |s.e.plan|)))
  {
    var active := ActivePlaces(s.c.sites);
    var t := s.(e := Refresh(s.e, active, |s.e.plan|));
    RefreshKeepsOrder(s, active);
    RefreshAdvances(s.e, active, |s.e.plan|);
    hide InOrder, ValidSites, LogTells, Quiet;
    assert UniqueIds(s.e.plan) by { PlanIsUnique(s); }
    forall i | 0 <= i < |t.subs| ensures Accounted(m0, t, i) {
      assert Accounted(m0, s, i);
      var a := s.subs[i].at;
      var n :| 0 <= n < |s.e.plan| && s.e.plan[n].id == s.subs[i].id && Orders(m0, s.c.log, a, s.e.plan[n]);
      if StatusOf(t.e, s.subs[i].id) == Complete && StatusOf(s.e, s.subs[i].id) != Complete {
        RefreshPromotes(s.e, active, |s.e.plan|, n);
        NoSiteMeansOver(m0, s.c, a);
      }
    }
  }

  lemma PlanIsUnique(s: Session)
    requires InOrder(s)
    ensures UniqueIds(s.e.plan)
  {
  }

  /** A placement writes down what its tool is to make of the tile. */
  lemma PlacementGrowsLog(c: Colony, tool: Tool, p: Point)
    requires WellFormed(c.m)
    ensures var (c', o) := PlaceToolAt(c, tool, p);
      && c.log <= c'.log && c'.m == c.m && (forall k :: |c.log| <= k < |c'.log| ==> !c'.log[k].Finished?)
      && (o.phase == BlueprintPhase ==>
            && InBounds(p, c.m) && |c'.log| == |c.log| + 1
            && c'.log[|c.log|].Blueprint? && c'.log[|c.log|].p == p
            && Makes(tool, TileAt(c.m, p), c'.log[|c.log|].target))
  {
  }

  /** Attempting step i cancels another tile's blueprint from off the map. */
  ghost predicate AttemptStrikes(s: Session, i: nat)
    requires i < |s.e.plan|
  {
    var step := s.e.plan[i];
    StatusOf(s.e, step.id) == Pending && DependenciesComplete(s.e, step) && step.tool == Erase && Strikes(s.c, step.p)
  }

  /** Some attempt that the submission loop makes from step i on does. */
  ghost predicate SubmitStrikes(s: Session, i: nat)
    requires WellFormed(s.c.m) && i <= |s.e.plan|
    decreases |s.e.plan| - i
  {
    i < |s.e.plan|
    && (AttemptStrikes(s, i) || (!Attempt(s, i).1 && SubmitStrikes(Attempt(s, i).0, i + 1)))
  }

  ghost predicate TickStrikes(s: Session)
    requires WellFormed(s.c.m)
  {
    s.e.plan != [] && SubmitStrikes(s.(e := Refresh(s.e, ActivePlaces(s.c.sites), |s.e.plan|)), 0)
  }

  /** The blueprint just placed is the step's. */
  lemma PlacedAsOrdered(m0: Terrain, c: Colony, step: PlanStep)
    requires LogTells(m0, c) && SameShape(m0, c.m) && PlaceToolAt(c, step.tool, step.p).1.phase == BlueprintPhase
    ensures Orders(m0, PlaceToolAt(c, step.tool, step.p).0.log, |c.log|, step)
  {
    PlacementGrowsLog(c, step.tool, step.p);
    assert PlaceToolAt(c, step.tool, step.p).0.log[..|c.log|] == c.log;
  }

  lemma ColonyKeepsRest(m0: Terrain, s: Session, t: Session)
    requires Sound(m0, s) && t.e.plan == s.e.plan && t.subs == s.subs && InOrder(t)
    requires ValidSites(t.c) && LogTells(m0, t.c) && SameShape(s.c.m, t.c.m) && s.c.log <= t.c.log
    requires forall id :: StatusOf(t.e, id) == Complete ==> StatusOf(s.e, id) == Complete
    ensures Sound(m0, t)
  {
    assert WellFormed(m0);
    hide InOrder, ValidSites, LogTells, SameShape;
    forall i | 0 <= i < |s.subs| ensures Accounted(m0, t, i) {
      assert Accounted(m0, s, i);
      GrowthKeepsAccounts(m0, s, t, i);
    }
    hide Accounted;
  }

  /** A refused or cancelling attempt, and a submitted one. */
  lemma AttemptKeepsSound(m0: Terrain, s: Session, i: nat)
    requires Sound(m0, s) && i < |s.e.plan| && !AttemptStrikes(s, i)
    ensures Sound(m0, Attempt(s, i).0)
  {
    var step := s.e.plan[i];
    if StatusOf(s.e, step.id) == Pending && DependenciesComplete(s.e, step) {
      var (c', o) := PlaceToolAt(s.c, step.tool, step.p);
      AttemptKeepsOrder(s, i);
      PlacementKeepsMirrorIff(s.c, step.tool, step.p);
      PlacementKeepsLog(m0, s.c, step.tool, step.p);
      PlacementGrowsLog(s.c, step.tool, step.p);
      if o.ok && o.phase == BlueprintPhase {
        SubmissionKeepsSound(m0, s, i);
      } else {
        hide PlaceToolAt, InOrder, ValidSites, LogTells, DependenciesComplete;
        ColonyKeepsRest(m0, s, Attempt(s, i).0);
      }
    }
  }

  lemma SubmissionKeepsSound(m0: Terrain, s: Session, i: nat)
    requires Sound(m0, s) && i < |s.e.plan|
    requires StatusOf(s.e, s.e.plan[i].id) == Pending && DependenciesComplete(s.e, s.e.plan[i])
    requires var step := s.e.plan[i];
      && PlaceToolAt(s.c, step.tool, step.p).1.phase == BlueprintPhase
      && ValidSites(PlaceToolAt(s.c, step.tool, step.p).0) && LogTells(m0, PlaceToolAt(s.c, step.tool, step.p).0)
    ensures var step := s.e.plan[i];
      Sound(m0, Session(SetStatus(s.e, step.id, Submitted), PlaceToolAt(s.c, step.tool, step.p).0,
                        s.subs + [Submission(step.id, |s.c.log|)]))
  {
    var step := s.e.plan[i];
    var c' := PlaceToolAt(s.c, step.tool, step.p).0;
    var sent := Session(SetStatus(s.e, step.id, Submitted), c', s.subs + [Submission(step.id, |s.c.log|)]);
    SubmissionKeepsOrder(s, i, c');
    PlacementGrowsLog(s.c, step.tool, step.p);
    PlacedAsOrdered(m0, s.c, step);
    hide PlaceToolAt, InOrder, ValidSites, LogTells, Orders, DependenciesComplete;
    forall k | 0 <= k < |sent.subs| ensures Accounted(m0, sent, k) {
      if k < |s.subs| {
        assert Accounted(m0, s, k);
        GrowthKeepsAccounts(m0, s, sent, k);
      }
    }
  }

  lemma {:induction false} SubmitKeepsSound(m0: Terrain, s: Session, i: nat)
    requires WellFormed(s.c.m) && i <= |s.e.plan| && Sound(m0, s) && !SubmitStrikes(s, i)
    ensures Sound(m0, Submit(s, i))
    decreases |s.e.plan| - i
  {
    hide Sound, Attempt, AttemptStrikes;
    if i < |s.e.plan| {
      AttemptKeepsSound(m0, s, i);
      if !Attempt(s, i).1 { SubmitKeepsSound(m0, Attempt(s, i).0, i + 1); }
    }
  }

  lemma TickKeepsSound(m0: Terrain, s: Session)
    requires WellFormed(s.c.m) && Sound(m0, s) && !TickStrikes(s)
    ensures Sound(m0, TickPlan(s))
  {
    if s.e.plan != [] {
      RefreshKeepsSound(m0, s);
      SubmitKeepsSound(m0, s.(e := Refresh(s.e, ActivePlaces(s.c.sites), |s.e.plan|)), 0);
    }
  }

  // ---- a strike is not made good within the tick -------------------------------------------------

  /** Some site has no overlay. */
  ghost predicate Dangling(c: Colony) {
    exists i :: 0 <= i < |c.sites| && KeyOf(c, c.sites[i].p) !in c.overlays
  }

  lemma StrikeLeavesDangling(c: Colony, p: Point)
    requires Mirror(c) && Strikes(c, p)
    ensures Dangling(CancelBlueprint(c, p).0)
  {
    NoSiteOffMap(c, p);
    assert HasSite(c, KeyOf(c, p));
  }

  lemma CancelStaysDangling(c: Colony, p: Point)
    requires Dangling(c)
    ensures Dangling(CancelBlueprint(c, p).0)
  {
    var i :| 0 <= i < |c.sites| && KeyOf(c, c.sites[i].p) !in c.overlays;
    if CancelBlueprint(c, p).1.ok {
      var d, j := CancelBlueprint(c, p).0, SiteIndex(c.sites, p);
      assert d.sites[if i < j then i else i - 1] == c.sites[i];
    }
  }

  /** A new blueprint leaves the dangling site where it was, or stands beside it. */
  lemma BlueprintStaysBroken(c: Colony, p: Point, o: Overlay)
    requires WellFormed(c.m) && Dangling(c)
    ensures !Mirror(WriteBlueprint(c, p, o))
  {
    var i :| 0 <= i < |c.sites| && KeyOf(c, c.sites[i].p) !in c.overlays;
    var d := WriteBlueprint(c, p, o);
    if Mirror(d) {
      assert SiteOk(d, i) && SiteOk(d, |c.sites|);
      assert d.sites[i] == c.sites[i] && d.sites[|c.sites|].p == p;
      SamePlace(c, c.sites[i].p, p);
      assert false;
    }
  }

  lemma PlacementStaysBroken(c: Colony, tool: Tool, p: Point)
    requires WellFormed(c.m) && Dangling(c)
    ensures var (d, o) := PlaceToolAt(c, tool, p);
      if o.phase == BlueprintPhase then !Mirror(d) else Dangling(d)
  {
    if tool == Erase && OverlayAt(c, p).Some? {
      CancelStaysDangling(c, p);
    } else {
      BlueprintStaysBroken(c, p, NewOverlay(tool, EvaluatePreview(c.m, c.resources, tool, p)));
    }
  }

  lemma DanglingBreaksMirror(c: Colony)
    requires Dangling(c)
    ensures !Mirror(c)
  {
    var i :| 0 <= i < |c.sites| && KeyOf(c, c.sites[i].p) !in c.overlays;
    assert !SiteOk(c, i);
  }

  lemma {:induction false} SubmitStaysBroken(s: Session, i: nat)
    requires WellFormed(s.c.m) && i <= |s.e.plan| && Dangling(s.c)
    ensures !Mirror(Submit(s, i).c)
    decreases |s.e.plan| - i
  {
    DanglingBreaksMirror(s.c);
    if i < |s.e.plan| {
      PlacementStaysBroken(s.c, s.e.plan[i].tool, s.e.plan[i].p);
      hide Mirror, Dangling, PlaceToolAt, DependenciesComplete;
      if !Attempt(s, i).1 { SubmitStaysBroken(Attempt(s, i).0, i + 1); }
    }
  }

  lemma {:induction false} SubmitStrikeBreaks(m0: Terrain, s: Session, i: nat)
    requires WellFormed(s.c.m) && i <= |s.e.plan| && Sound(m0, s) && SubmitStrikes(s, i)
    ensures !Mirror(Submit(s, i).c)
    decreases |s.e.plan| - i
  {
    hide Sound, Mirror, Attempt, AttemptStrikes, Dangling, CancelBlueprint, WellFormed;
    if AttemptStrikes(s, i) {
      StrikingAttempt(m0, s, i);
      SubmitStaysBroken(Attempt(s, i).0, i + 1);
    } else {
      AttemptKeepsSound(m0, s, i);
      SubmitStrikeBreaks(m0, Attempt(s, i).0, i + 1);
    }
  }

  lemma StrikingAttempt(m0: Terrain, s: Session, i: nat)
    requires WellFormed(s.c.m) && i < |s.e.plan| && Sound(m0, s) && AttemptStrikes(s, i)
    ensures !Attempt(s, i).1 && Dangling(Attempt(s, i).0.c)
  {
    StrikeLeavesDangling(s.c, s.e.plan[i].p);
    assert Attempt(s, i) == (s.(c := CancelBlueprint(s.c, s.e.plan[i].p).0), false);
  }

  lemma TickStrikeBreaks(m0: Terrain, s: Session)
    requires WellFormed(s.c.m) && Sound(m0, s) && TickStrikes(s)
    ensures !Sound(m0, TickPlan(s))
  {
    RefreshKeepsSound(m0, s);
    SubmitStrikeBreaks(m0, s.(e := Refresh(s.e, ActivePlaces(s.c.sites), |s.e.plan|)), 0);
  }

  /** The move reaches another tile's blueprint from off the map. */
  ghost predicate Astray(s: Session, move: Move)
    requires WellFormed(s.c.m)
  {
    match move
    case ExecutorTick => TickStrikes(s)
    case World(op) => Aliases(s.c, op)
  }

  lemma WorldKeepsSound(m0: Terrain, s: Session, op: Op)
    requires Sound(m0, s) && !Aliases(s.c, op)
    ensures Sound(m0, s.(c := Step(s.c, op)))
  {
    var t := s.(c := Step(s.c, op));
    StepKeepsSitesIff(s.c, op);
    StepKeepsLog(m0, s.c, op);
    StepGrowsLog(s.c, op);
    OrderIgnoresColony(s, t.c);
    hide InOrder, ValidSites, LogTells, Step;
    ColonyKeepsRest(m0, s, t);
  }

  /** No move of the run reaches another tile's blueprint from off the map. */
  ghost predicate NeverAstray(s: Session, moves: seq<Move>)
    requires WellFormed(s.c.m) && s.c.m.width > 0
  {
    moves == []
    || (&& NeverAstray(s, moves[..|moves| - 1])
        && !Astray(PerformAll(s, moves[..|moves| - 1]), moves[|moves| - 1]))
  }

  lemma MoveKeepsSoundIff(m0: Terrain, s: Session, move: Move)
    requires WellFormed(s.c.m) && s.c.m.width > 0 && Sound(m0, s)
    ensures Sound(m0, Perform(s, move)) <==> !Astray(s, move)
  {
    match move
    case ExecutorTick =>
      if TickStrikes(s) { TickStrikeBreaks(m0, s); } else { TickKeepsSound(m0, s); }
    case World(op) =>
      if Aliases(s.c, op) { StepKeepsSitesIff(s.c, op); } else { WorldKeepsSound(m0, s, op); }
  }

  lemma FreshIsSound(plan: seq<PlanStep>, c: Colony)
    requires UniqueIds(plan) && ValidSites(c) && c.log == []
    ensures Sound(c.m, Session(Loaded(plan), c, []))
  {
  }

  /** Everything holds after each move of the run. */
  ghost predicate AlwaysSound(m0: Terrain, s: Session, moves: seq<Move>)
    requires WellFormed(s.c.m) && s.c.m.width > 0
  {
    Sound(m0, PerformAll(s, moves)) && (moves == [] || AlwaysSound(m0, s, moves[..|moves| - 1]))
  }

  /** Over any run of executor ticks and world operations from a freshly loaded plan with unique
      ids: submissions extend the dependency order, each has announced the blueprint of what its step
      asks for, and no blueprint of a step counted complete is untouched. That, and the mirror and the
      log with it, holds throughout exactly when nothing is cancelled or worked on from off the map. */
  lemma {:induction false} RunIsSoundIff(plan: seq<PlanStep>, c: Colony, moves: seq<Move>)
    requires UniqueIds(plan) && ValidSites(c) && c.log == []
    ensures AlwaysSound(c.m, Session(Loaded(plan), c, []), moves) <==> NeverAstray(Session(Loaded(plan), c, []), moves)
  {
    var s := Session(Loaded(plan), c, []);
    FreshIsSound(plan, c);
    assert WellFormed(c.m) && c.m.width > 0;
    hide Sound, Astray, Perform, ValidSites, UniqueIds;
    if moves != [] {
      var front := moves[..|moves| - 1];
      RunIsSoundIff(plan, c, front);
      if AlwaysSound(c.m, s, front) { MoveKeepsSoundIff(c.m, PerformAll(s, front), moves[|moves| - 1]); }
    }
  }

  // ---- dependencies are over -----------------------------------------------------------------------

  /** What was announced at a was finished or cancelled before position `at`, with nothing else happening
      to its tile in between. */
  ghost predicate OverBefore(log: seq<Event>, a: nat, at: nat) {
    exists b: nat :: NextAt(log, a, b) && b < at && Ends(log[a], log[b])
  }

  /** What step d announced was over when submission i was made. */
  ghost predicate DependencyOver(s: Session, i: nat, d: string)
    requires i < |s.subs|
  {
    exists j :: 0 <= j < i && s.subs[j].id == d && OverBefore(s.c.log, s.subs[j].at, s.subs[i].at)
  }

  ghost predicate WaitedFor(s: Session, i: nat)
    requires i < |s.subs|
  {
    exists n :: 0 <= n < |s.e.plan| && s.e.plan[n].id == s.subs[i].id
             && forall d :: d in s.e.plan[n].dependsOn ==> DependencyOver(s, i, d)
  }

  /** Every submission was made after all that its step depends on was finished or cancelled. */
  ghost predicate AllWaited(s: Session) {
    forall i :: 0 <= i < |s.subs| ==> WaitedFor(s, i)
  }

  lemma StaysOver(log: seq<Event>, grown: seq<Event>, a: nat, at: nat)
    requires log <= grown && OverBefore(log, a, at)
    ensures OverBefore(grown, a, at)
  {
    var b: nat :| NextAt(log, a, b) && b < at && Ends(log[a], log[b]);
    NextIsForGood(log, grown[|log|..], a, b);
    assert grown == log + grown[|log|..];
    assert NextAt(grown, a, b);
  }

  lemma DependencyStaysOver(s: Session, t: Session, i: nat, d: string)
    requires i < |s.subs| && s.subs <= t.subs && s.c.log <= t.c.log && DependencyOver(s, i, d)
    ensures DependencyOver(t, i, d)
  {
    hide OverBefore;
    var j :| 0 <= j < i && s.subs[j].id == d && OverBefore(s.c.log, s.subs[j].at, s.subs[i].at);
    StaysOver(s.c.log, t.c.log, s.subs[j].at, s.subs[i].at);
    assert t.subs[j] == s.subs[j] && t.subs[i] == s.subs[i];
  }

  lemma StaysWaited(s: Session, t: Session, i: nat)
    requires i < |s.subs| && s.subs <= t.subs && s.c.log <= t.c.log && t.e.plan == s.e.plan && WaitedFor(s, i)
    ensures WaitedFor(t, i)
  {
    var n :| 0 <= n < |s.e.plan| && s.e.plan[n].id == s.subs[i].id
          && forall d :: d in s.e.plan[n].dependsOn ==> DependencyOver(s, i, d);
    forall d | d in s.e.plan[n].dependsOn ensures DependencyOver(t, i, d) {
      DependencyStaysOver(s, t, i, d);
    }
  }

  /** A step that counts as complete has what it announced behind it. */
  lemma CompleteIsOver(m0: Terrain, s: Session, d: string) returns (j: nat)
    requires Sound(m0, s) && StatusOf(s.e, d) == Complete
    ensures j < |s.subs| && s.subs[j].id == d && OverBefore(s.c.log, s.subs[j].at, |s.c.log|)
  {
    assert WasSubmitted(s.subs, d);
    j :| 0 <= j < |s.subs| && s.subs[j].id == d;
    assert Accounted(m0, s, j);
    var a := s.subs[j].at;
    assert Told(s.c, a);
    var b: nat :| NextAt(s.c.log, a, b) && Follows(s.c.log[a], s.c.log[b]);
  }

  lemma NewSubmissionWaited(m0: Terrain, s: Session, i: nat, t: Session)
    requires Sound(m0, s) && i < |s.e.plan| && DependenciesComplete(s.e, s.e.plan[i])
    requires t.e.plan == s.e.plan && t.subs == s.subs + [Submission(s.e.plan[i].id, |s.c.log|)]
    requires s.c.log <= t.c.log
    ensures WaitedFor(t, |s.subs|)
  {
    forall d | d in s.e.plan[i].dependsOn ensures DependencyOver(t, |s.subs|, d) {
      var j := CompleteIsOver(m0, s, d);
      StaysOver(s.c.log, t.c.log, s.subs[j].at, |s.c.log|);
      assert t.subs[j] == s.subs[j];
    }
    assert t.subs[|s.subs|].id == s.e.plan[i].id;
  }

  lemma AttemptKeepsWaited(m0: Terrain, s: Session, i: nat)
    requires WellFormed(s.c.m) && i < |s.e.plan| && Sound(m0, s) && AllWaited(s)
    ensures AllWaited(Attempt(s, i).0)
  {
    var step, t := s.e.plan[i], Attempt(s, i).0;
    PlacementGrowsLog(s.c, step.tool, step.p);
    if t.subs != s.subs { NewSubmissionWaited(m0, s, i, t); }
    hide PlaceToolAt, DependenciesComplete, Sound, WaitedFor;
    forall k | 0 <= k < |t.subs| ensures WaitedFor(t, k) {
      if k < |s.subs| { StaysWaited(s, t, k); }
    }
  }

  lemma {:induction false} SubmitKeepsWaited(m0: Terrain, s: Session, i: nat)
    requires WellFormed(s.c.m) && i <= |s.e.plan| && Sound(m0, s) && !SubmitStrikes(s, i) && AllWaited(s)
    ensures AllWaited(Submit(s, i))
    decreases |s.e.plan| - i
  {
    hide Sound, Attempt, AttemptStrikes, AllWaited;
    if i < |s.e.plan| {
      AttemptKeepsSound(m0, s, i);
      AttemptKeepsWaited(m0, s, i);
      if !Attempt(s, i).1 { SubmitKeepsWaited(m0, Attempt(s, i).0, i + 1); }
    }
  }

  lemma MoveKeepsWaited(m0: Terrain, s: Session, move: Move)
    requires WellFormed(s.c.m) && s.c.m.width > 0 && Sound(m0, s) && AllWaited(s) && !Astray(s, move)
    ensures AllWaited(Perform(s, move))
  {
    hide Sound, WaitedFor;
    match move
    case ExecutorTick =>
      if s.e.plan != [] {
        var t := s.(e := Refresh(s.e, ActivePlaces(s.c.sites), |s.e.plan|));
        RefreshKeepsSound(m0, s);
        forall k | 0 <= k < |t.subs| ensures WaitedFor(t, k) { StaysWaited(s, t, k); }
        SubmitKeepsWaited(m0, t, 0);
      }
    case World(op) =>
      var t := s.(c := Step(s.c, op));
      StepGrowsLog(s.c, op);
      forall k | 0 <= k < |t.subs| ensures WaitedFor(t, k) { StaysWaited(s, t, k); }
  }

  /** Over any run that never goes astray a step is submitted only after everything it depends on has
      been finished or cancelled. */
  lemma {:induction false} RunWaits(plan: seq<PlanStep>, c: Colony, moves: seq<Move>)
    requires UniqueIds(plan) && ValidSites(c) && c.log == [] && NeverAstray(Session(Loaded(plan), c, []), moves)
    ensures AllWaited(PerformAll(Session(Loaded(plan), c, []), moves))
  {
    var s := Session(Loaded(plan), c, []);
    assert WellFormed(c.m) && c.m.width > 0;
    if moves != [] {
      var front := moves[..|moves| - 1];
      RunWaits(plan, c, front);
      RunIsSoundIff(plan, c, front);
      hide Sound, Astray, Perform, ValidSites, UniqueIds, AllWaited;
      MoveKeepsWaited(c.m, PerformAll(s, front), moves[|moves| - 1]);
    }
    hide Sound, Astray, Perform, ValidSites, UniqueIds;
  }

  // ---- carried out, or cancelled -----------------------------------------------------------------

  /** The event at b finishes the blueprint announced at a, before another is announced there, and
      its target is what the tile then is. */
  ghost predicate CarriedOutAt(m0: Terrain, log: seq<Event>, a: nat, b: nat)
    requires WellFormed(m0)
  {
    && a < b < |log| && log[a].Blueprint? && InBounds(log[a].p, m0)
    && log[b] == Finished(log[a].p, log[a].target)
    && (forall i :: a < i < b ==> !(log[i].Blueprint? && log[i].p == log[a].p))
    && TileAt(Replay(m0, log[..b + 1]), log[a].p) == log[a].target
  }

  ghost predicate CarriedOut(m0: Terrain, log: seq<Event>, a: nat)
    requires WellFormed(m0)
  {
    exists b: nat :: CarriedOutAt(m0, log, a, b)
  }

  /** The first thing that happens at the tile after a is a cancellation. */
  ghost predicate CancelledNext(log: seq<Event>, a: nat) {
    exists b: nat :: NextAt(log, a, b) && log[b].Cancelled?
  }

  lemma WrittenReads(m: Terrain, p: Point, t: int)
    requires WellFormed(m) && InBounds(p, m) && 0 <= t < 256
    ensures TileAt(WriteTile(m, p, t), p) == t
  {
    PointOfIndexOfPoint(p, m);
    hide ToIndex;
  }

  lemma FinishedWritesTile(m0: Terrain, log: seq<Event>, b: nat)
    requires WellFormed(m0) && b < |log| && log[b].Finished? && InBounds(log[b].p, m0) && 0 <= log[b].target < 256
    ensures TileAt(Replay(m0, log[..b + 1]), log[b].p) == log[b].target
  {
    assert log[..b + 1][..b] == log[..b];
    var before, e := Replay(m0, log[..b]), log[b];
    assert Replay(m0, log[..b + 1]) == WriteTile(before, e.p, e.target);
    hide Replay;
    WrittenReads(before, e.p, e.target);
  }

  lemma TargetsAreTiles(tool: Tool, was: int, target: int)
    requires Makes(tool, was, target)
    ensures 0 <= target < 256
  {
  }

  lemma NextWord(m0: Terrain, c: Colony, a: nat, b: nat) returns (n: nat)
    requires LogTells(m0, c) && a < b < |c.log| && c.log[b].p == c.log[a].p
    ensures NextAt(c.log, a, n) && a < n <= b && c.log[n].p == c.log[a].p && Follows(c.log[a], c.log[n])
  {
    assert Told(c, a);
    assert !Quiet(c.log, a);
    hide LogTells, Quiet, Stands;
    n :| NextAt(c.log, a, n) && Follows(c.log[a], c.log[n]);
  }

  /** Only the next event about the tile can finish a blueprint. */
  lemma OnlyNextFinishes(m0: Terrain, c: Colony, a: nat, b: nat)
    requires WellFormed(m0) && LogTells(m0, c) && CarriedOutAt(m0, c.log, a, b)
    ensures NextAt(c.log, a, b)
  {
    hide LogTells, NextAt, TileAt, Replay;
    var n := NextWord(m0, c, a, b);
    if n < b {
      var k := NextWord(m0, c, n, b);
    }
  }

  /** A step counted complete had what it asks for announced at its tile, and that was carried out
      exactly when the next thing that happened there was not a cancellation. */
  lemma CompleteCarriedOutIff(m0: Terrain, s: Session, i: nat)
    requires Sound(m0, s) && i < |s.subs| && StatusOf(s.e, s.subs[i].id) == Complete
    ensures WellFormed(m0) && s.c.m == Replay(m0, s.c.log)
    ensures exists n :: 0 <= n < |s.e.plan| && s.e.plan[n].id == s.subs[i].id
                     && Orders(m0, s.c.log, s.subs[i].at, s.e.plan[n])
    ensures CarriedOut(m0, s.c.log, s.subs[i].at) <==> !CancelledNext(s.c.log, s.subs[i].at)
  {
    var log, a := s.c.log, s.subs[i].at;
    assert Accounted(m0, s, i);
    var n :| 0 <= n < |s.e.plan| && s.e.plan[n].id == s.subs[i].id && Orders(m0, log, a, s.e.plan[n]);
    TargetsAreTiles(s.e.plan[n].tool, TileBefore(m0, log, a), log[a].target);
    assert LogTells(m0, s.c);
    hide Sound, Orders, Accounted, LogTells;
    NextDecides(m0, s.c, a);
  }

  lemma NextDecides(m0: Terrain, c: Colony, a: nat)
    requires WellFormed(m0) && LogTells(m0, c) && a < |c.log| && !Quiet(c.log, a)
    requires c.log[a].Blueprint? && 0 <= c.log[a].target < 256 && InBounds(c.log[a].p, m0)
    ensures CarriedOut(m0, c.log, a) <==> !CancelledNext(c.log, a)
  {
    var log := c.log;
    var w :| a < w < |log| && log[w].p == log[a].p;
    var b := NextWord(m0, c, a, w);
    hide LogTells, NextAt, Replay, TileAt;
    if log[b].Finished? {
      FinishedWritesTile(m0, log, b);
      assert CarriedOutAt(m0, log, a, b);
      if CancelledNext(log, a) {
        var b': nat :| NextAt(log, a, b') && log[b'].Cancelled?;
        NextIsUnique(log, a, b, b');
      }
    } else if CarriedOut(m0, log, a) {
      var b': nat :| CarriedOutAt(m0, log, a, b');
      OnlyNextFinishes(m0, c, a, b');
      NextIsUnique(log, a, b, b');
    }
  }

  /** One completion cannot pay for two submissions. */
  lemma NoSharedCompletion(m0: Terrain, s: Session, i: nat, j: nat, b: nat)
    requires Sound(m0, s) && i < j < |s.subs|
    requires CarriedOutAt(m0, s.c.log, s.subs[i].at, b)
    ensures !CarriedOutAt(m0, s.c.log, s.subs[j].at, b)
  {
    assert s.subs[i].at < s.subs[j].at;
    hide Sound, Replay;
  }

  /** The log has grown, but by no completion. */
  ghost predicate Grown(s: Session, t: Session) {
    && s.c.log <= t.c.log && s.subs <= t.subs
    && forall k :: |s.c.log| <= k < |t.c.log| ==> !t.c.log[k].Finished?
  }

  lemma AttemptGrows(s: Session, t: Session, k: nat)
    requires WellFormed(t.c.m) && k < |t.e.plan| && Grown(s, t)
    ensures Grown(s, Attempt(t, k).0)
  {
    PlacementGrowsLog(t.c, t.e.plan[k].tool, t.e.plan[k].p);
    hide PlaceToolAt, DependenciesComplete;
  }

  lemma SubmitGrowsLog(s: Session)
    requires WellFormed(s.c.m)
    ensures Grown(s, Submit(s, 0))
  {
    hide Submit, Attempt;
    var grown := (t: Session) => Grown(s, t);
    assert grown(s);
    hide Grown;
    forall t: Session, k: nat | WellFormed(t.c.m) && k < |t.e.plan| && grown(t) ensures grown(Attempt(t, k).0) {
      AttemptGrows(s, t, k);
    }
    SubmitKeeps(grown, grown, s, 0);
    assert grown(Submit(s, 0));
  }

  /** The exception is real, from every state with a submitted step whose blueprint still stands:
      cancel the blueprint, and the next tick counts the step as complete, never carried out. */
  lemma CancellationPromotes(m0: Terrain, s: Session, i: nat)
    requires Sound(m0, s) && i < |s.subs| && StatusOf(s.e, s.subs[i].id) == Submitted
    requires s.subs[i].at < |s.c.log| && Quiet(s.c.log, s.subs[i].at)
    requires OverlayAt(s.c, s.c.log[s.subs[i].at].p).Some? && OverlayAt(s.c, s.c.log[s.subs[i].at].p).value.cancelable
    ensures var t := TickPlan(s.(c := CancelBlueprint(s.c, s.c.log[s.subs[i].at].p).0));
      && i < |t.subs| && t.subs[i] == s.subs[i] && StatusOf(t.e, s.subs[i].id) == Complete
      && !CarriedOut(m0, t.c.log, s.subs[i].at)
  {
    var a := s.subs[i].at;
    var p, id := s.c.log[a].p, s.subs[i].id;
    var c' := CancelBlueprint(s.c, p).0;
    var t := s.(c := c');
    assert Accounted(m0, s, i);
    var n :| 0 <= n < |s.e.plan| && s.e.plan[n].id == id && Orders(m0, s.c.log, a, s.e.plan[n]);
    assert InBounds(p, s.c.m);
    WorldKeepsSound(m0, s, Op.Cancel(p));
    CancelRemovesPlace(s.c, p);
    RefreshReaches(s.e, ActivePlaces(c'.sites), |s.e.plan|, n);
    assert c'.log == s.c.log + [Cancelled(p)];
    assert NextAt(c'.log, a, |s.c.log|);
    hide CancelBlueprint, Accounted, Orders, ValidSites, LogTells, InTime;
    PromotedStays(m0, t, i);
    StaysUncarried(m0, c'.log, TickPlan(t).c.log, a);
  }

  /** A blueprint that the last word of the log cancels is not carried out by a log that grows
      without a completion. */
  lemma StaysUncarried(m0: Terrain, log: seq<Event>, grown: seq<Event>, a: nat)
    requires WellFormed(m0) && log <= grown && log != [] && NextAt(log, a, |log| - 1) && log[|log| - 1].Cancelled?
    requires forall k :: |log| <= k < |grown| ==> !grown[k].Finished?
    ensures !CarriedOut(m0, grown, a)
  {
    forall b: nat ensures !CarriedOutAt(m0, grown, a, b) {
      if a < b < |log| - 1 { assert grown[b] == log[b]; }
    }
  }

  /** What the refresh at the start of a tick has promoted is complete at its end. */
  lemma PromotedStays(m0: Terrain, t: Session, i: nat)
    requires Sound(m0, t) && i < |t.subs| && t.e.plan != []
    requires StatusOf(Refresh(t.e, ActivePlaces(t.c.sites), |t.e.plan|), t.subs[i].id) == Complete
    ensures i < |TickPlan(t).subs| && TickPlan(t).subs[i] == t.subs[i]
    ensures StatusOf(TickPlan(t).e, t.subs[i].id) == Complete
    ensures t.c.log <= TickPlan(t).c.log
    ensures forall k :: |t.c.log| <= k < |TickPlan(t).c.log| ==> !TickPlan(t).c.log[k].Finished?
  {
    var active := ActivePlaces(t.c.sites);
    var r := t.(e := Refresh(t.e, active, |t.e.plan|));
    RefreshKeepsOrder(t, active);
    SubmitKeepsOrder(r, 0);
    SubmitGrowsLog(r);
    hide InOrder, Sound;
  }

  lemma CancelRemovesPlace(c: Colony, p: Point)
    requires ValidSites(c) && InBounds(p, c.m) && CancelBlueprint(c, p).1.ok
    ensures p !in ActivePlaces(CancelBlueprint(c, p).0.sites)
  {
    var d := CancelBlueprint(c, p).0;
    CancelKeepsMirrorIff(c, p);
    assert Mirror(d) && KeyOf(d, p) !in d.overlays;
    forall j | 0 <= j < |d.sites| ensures d.sites[j].p != p {
      assert SiteOk(d, j);
    }
  }

  lemma {:induction false} RefreshReaches(e: Executor, active: set<Point>, n: nat, k: nat)
    requires n <= |e.plan| && UniqueIds(e.plan) && k < n
    requires StatusOf(e, e.plan[k].id) == Submitted && e.plan[k].p !in active
    ensures StatusOf(Refresh(e, active, n), e.plan[k].id) == Complete
  {
    RefreshAdvances(e, active, n - 1);
    if k < n - 1 { RefreshReaches(e, active, n - 1, k); }
  }

  // ---- one such run ---------------------------------------------------------------------------------

  const HERE := Point(0, 0)

  function OneStep(): PlanStep {
    PlanStep("a", Road, HERE, [])
  }

  /** One cell of grass and the wood for one road. */
  function OneCell(): Colony {
    Colony(Terrain(1, 1, [GRASS]), Resources(0.0, 1.0, 0.0), map[], [], [])
  }

  lemma RoadGoesUp()
    ensures ValidSites(OneCell()) && PlaceToolAt(OneCell(), Road, HERE).1 == Outcome(true, Fine, BlueprintPhase)
    ensures PlaceToolAt(OneCell(), Road, HERE).0.log == [Blueprint(HERE, ROAD)]
  {
    assert OneCell().log == [];
  }

  lemma FirstTick()
    ensures TickPlan(Session(Loaded([OneStep()]), OneCell(), [])) ==
      Session(Executor([OneStep()], map["a" := Submitted]), PlaceToolAt(OneCell(), Road, HERE).0, [Submission("a", 0)])
  {
    RoadGoesUp();
    hide PlaceToolAt;
    var s := Session(Loaded([OneStep()]), OneCell(), []);
    assert Loaded([OneStep()]).status == map["a" := Pending];
    assert Refresh(s.e, ActivePlaces(s.c.sites), 1) == s.e;
    assert Attempt(s, 0).1;
  }

  lemma SecondTick(c: Colony)
    requires WellFormed(c.m) && c.sites == []
    ensures TickPlan(Session(Executor([OneStep()], map["a" := Submitted]), c, [Submission("a", 0)])) ==
      Session(Executor([OneStep()], map["a" := Complete]), c, [Submission("a", 0)])
  {
    hide PlaceToolAt;
    var s := Session(Executor([OneStep()], map["a" := Submitted]), c, [Submission("a", 0)]);
    assert map["a" := Submitted]["a" := Complete] == map["a" := Complete];
    assert Refresh(s.e, ActivePlaces(c.sites), 0) == s.e;
    var t := s.(e := Refresh(s.e, ActivePlaces(c.sites), 1));
    assert t.e == Executor([OneStep()], map["a" := Complete]);
    assert Attempt(t, 0) == (t, false);
    assert Submit(t, 1) == t;
  }

  /** Tick, cancel, tick: the only step is complete, the cell is grass, and nothing was ever finished. */
  lemma CompleteButCancelled()
    ensures var start := Session(Loaded([OneStep()]), OneCell(), []);
      var s := Perform(Perform(Perform(start, ExecutorTick), World(Op.Cancel(HERE))), ExecutorTick);
      && StatusOf(s.e, "a") == Complete && s.c.m == OneCell().m
      && s.c.log == [Blueprint(HERE, ROAD), Cancelled(HERE)]
  {
    var c := PlaceToolAt(OneCell(), Road, HERE).0;
    RoadGoesUp();
    PlaceThenCancelRestores(OneCell(), Road, HERE);
    FirstTick();
    SecondTick(CancelBlueprint(c, HERE).0);
    hide PlaceToolAt, CancelBlueprint, TickPlan;
  }
}
