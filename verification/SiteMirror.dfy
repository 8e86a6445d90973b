/** The site list mirrors the overlays: one site per blueprint, with the same contents, and no
    worker holding two. */
module SiteMirror {
  import opened Wrappers
  import opened Tiles
  import opened BuildAdvisor
  import opened Construction
  import opened Ledger

  // ---- the invariant ----------------------------------------------------------------

  ghost predicate SiteOk(c: Colony, i: nat)
    requires i < |c.sites|
  {
    var p := c.sites[i].p;
    InBounds(p, c.m) && KeyOf(c, p) in c.overlays && c.sites[i] == SiteOf(p, c.overlays[KeyOf(c, p)])
  }

  ghost predicate HasSite(c: Colony, k: int) {
    exists i :: 0 <= i < |c.sites| && KeyOf(c, c.sites[i].p) == k
  }

  ghost predicate DistinctPlaces(sites: seq<Site>) {
    forall i, j :: 0 <= i < j < |sites| ==> sites[i].p != sites[j].p
  }

  ghost predicate Mirror(c: Colony) {
    && (forall i :: 0 <= i < |c.sites| ==> SiteOk(c, i))
    && DistinctPlaces(c.sites)
    && Covered(c)
  }

  /** Every overlay has a site. */
  ghost predicate Covered(c: Colony) {
    forall k :: k in c.overlays ==> HasSite(c, k)
  }

  /** No worker is the builder of two sites. */
  ghost predicate Exclusive(sites: seq<Site>) {
    forall i, j :: 0 <= i < j < |sites| && !Unassigned(sites[i].builder) ==> sites[i].builder != sites[j].builder
  }

  ghost predicate ValidSites(c: Colony) {
    ValidOverlays(c) && Mirror(c) && Exclusive(c.sites)
  }

  lemma SamePlace(c: Colony, p: Point, q: Point)
    requires WellFormed(c.m) && InBounds(p, c.m) && InBounds(q, c.m) && KeyOf(c, p) == KeyOf(c, q)
    ensures p == q
  {
    PointOfIndexOfPoint(p, c.m);
    PointOfIndexOfPoint(q, c.m);
  }

  /** An overlay on the map has its site exactly where a search for the tile finds it. */
  lemma FindsSite(c: Colony, p: Point)
    requires WellFormed(c.m) && Mirror(c) && InBounds(p, c.m) && KeyOf(c, p) in c.overlays
    ensures SiteIndex(c.sites, p) < |c.sites|
    ensures forall i :: 0 <= i < |c.sites| && i != SiteIndex(c.sites, p) ==> KeyOf(c, c.sites[i].p) != KeyOf(c, p)
  {
    assert HasSite(c, KeyOf(c, p));
    var i :| 0 <= i < |c.sites| && KeyOf(c, c.sites[i].p) == KeyOf(c, p);
    assert SiteOk(c, i);
    SamePlace(c, c.sites[i].p, p);
    forall j | 0 <= j < |c.sites| && j != SiteIndex(c.sites, p) ensures KeyOf(c, c.sites[j].p) != KeyOf(c, p) {
      assert SiteOk(c, j);
      if KeyOf(c, c.sites[j].p) == KeyOf(c, p) { SamePlace(c, c.sites[j].p, p); }
    }
  }

  lemma NoSiteWithoutOverlay(c: Colony, p: Point)
    requires Mirror(c) && KeyOf(c, p) !in c.overlays
    ensures SiteIndex(c.sites, p) == |c.sites|
  {
    forall i | 0 <= i < |c.sites| ensures c.sites[i].p != p {
      assert SiteOk(c, i);
    }
  }

  // ---- the mirror against the rebuild --------------------------------------------------

  lemma {:induction false} RebuiltMembers(c: Colony, n: nat)
    requires WellFormed(c.m) && c.m.width > 0 && n <= |c.m.tiles|
    ensures forall s :: s in RebuiltBelow(c, n) <==>
              (&& InBounds(s.p, c.m) && KeyOf(c, s.p) < n && KeyOf(c, s.p) in c.overlays
               && s == SiteOf(s.p, c.overlays[KeyOf(c, s.p)]))
    ensures DistinctPlaces(RebuiltBelow(c, n))
  {
    if n > 0 {
      RebuiltMembers(c, n - 1);
      IndexOfPointOfIndex(n - 1, c.m);
      var last := OfIndex(n - 1, c.m.width);
      forall s: Site | InBounds(s.p, c.m) && KeyOf(c, s.p) == n - 1 ensures s.p == last {
        SamePlace(c, s.p, last);
      }
    } else {
      forall s: Site | InBounds(s.p, c.m) ensures KeyOf(c, s.p) >= 0 {
        PointOfIndexOfPoint(s.p, c.m);
      }
    }
  }

  lemma {:induction false} NoRepeats(s: seq<Site>, x: Site)
    requires DistinctPlaces(s)
    ensures multiset(s)[x] == if x in s then 1 else 0
  {
    if s != [] {
      assert s == [s[0]] + s[1..];
      NoRepeats(s[1..], x);
    }
  }

  /** In every state that keeps the invariant the site list is, up to order, what rebuilding it
      from the overlays would give. */
  lemma MirrorIsRebuild(c: Colony)
    requires WellFormed(c.m) && c.m.width > 0 && Mirror(c)
    requires forall k :: k in c.overlays ==> 0 <= k < |c.m.tiles|
    ensures multiset(c.sites) == multiset(Rebuilt(c))
  {
    RebuiltMembers(c, |c.m.tiles|);
    forall x ensures multiset(c.sites)[x] == multiset(Rebuilt(c))[x] {
      NoRepeats(c.sites, x);
      NoRepeats(Rebuilt(c), x);
      if x in c.sites {
        var i :| 0 <= i < |c.sites| && c.sites[i] == x;
        assert SiteOk(c, i);
        PointOfIndexOfPoint(x.p, c.m);
      }
      if x in Rebuilt(c) {
        FindsSite(c, x.p);
        assert SiteOk(c, SiteIndex(c.sites, x.p));
      }
    }
  }

  ghost predicate Ascends(c: Colony, sites: seq<Site>, n: nat) {
    && (forall i :: 0 <= i < |sites| ==> 0 <= KeyOf(c, sites[i].p) < n)
    && (forall i, j :: 0 <= i < j < |sites| ==> KeyOf(c, sites[i].p) < KeyOf(c, sites[j].p))
  }

  /** A rebuild lists the sites by ascending flat index. */
  lemma {:induction false} RebuiltInOrder(c: Colony, n: nat)
    requires WellFormed(c.m) && c.m.width > 0 && n <= |c.m.tiles|
    ensures Ascends(c, RebuiltBelow(c, n), n)
  {
    if n > 0 {
      RebuiltInOrder(c, n - 1);
      IndexOfPointOfIndex(n - 1, c.m);
      if n - 1 in c.overlays {
        OneMoreAscends(c, RebuiltBelow(c, n - 1), SiteOf(OfIndex(n - 1, c.m.width), c.overlays[n - 1]), n);
      } else {
        FewerAscend(c, RebuiltBelow(c, n - 1), n);
      }
      hide Ascends, ToIndex, OfIndex;
    }
  }

  lemma FewerAscend(c: Colony, sites: seq<Site>, n: nat)
    requires n > 0 && Ascends(c, sites, n - 1)
    ensures Ascends(c, sites, n)
  {
    hide ToIndex;
  }

  lemma OneMoreAscends(c: Colony, sites: seq<Site>, s: Site, n: nat)
    requires n > 0 && Ascends(c, sites, n - 1) && KeyOf(c, s.p) == n - 1
    ensures Ascends(c, sites + [s], n)
  {
    hide ToIndex;
  }

  // ---- placement and cancellation --------------------------------------------------------

  lemma WritingKeepsMirror(c: Colony, p: Point, o: Overlay)
    requires WellFormed(c.m) && Mirror(c) && Exclusive(c.sites) && InBounds(p, c.m)
    requires KeyOf(c, p) !in c.overlays && o.builder.None?
    ensures Mirror(WriteBlueprint(c, p, o)) && Exclusive(WriteBlueprint(c, p, o).sites)
  {
    var d := WriteBlueprint(c, p, o);
    NoSiteWithoutOverlay(c, p);
    forall i | 0 <= i < |d.sites| ensures SiteOk(d, i) {
      if i < |c.sites| { assert SiteOk(c, i); }
    }
    forall k | k in d.overlays ensures HasSite(d, k) {
      if k == KeyOf(c, p) {
        assert d.sites[|c.sites|].p == p;
      } else {
        assert HasSite(c, k);
        var i :| 0 <= i < |c.sites| && KeyOf(c, c.sites[i].p) == k;
        assert d.sites[i] == c.sites[i];
      }
    }
  }

  /** Removing the overlay at a site's tile together with the site. */
  lemma RemovalKeepsMirror(c: Colony, d: Colony, i: nat)
    requires WellFormed(c.m) && Mirror(c) && Exclusive(c.sites) && i < |c.sites|
    requires d.m.width == c.m.width && d.m.height == c.m.height
    requires d.overlays == c.overlays - {KeyOf(c, c.sites[i].p)} && d.sites == RemoveAt(c.sites, i)
    ensures Mirror(d) && Exclusive(d.sites)
  {
    var p := c.sites[i].p;
    forall j | 0 <= j < |c.sites| && j != i ensures KeyOf(c, c.sites[j].p) != KeyOf(c, p) {
      assert SiteOk(c, i) && SiteOk(c, j);
      if KeyOf(c, c.sites[j].p) == KeyOf(c, p) { SamePlace(c, c.sites[j].p, p); }
    }
    forall j | 0 <= j < |d.sites| ensures SiteOk(d, j) {
      assert d.sites[j] == c.sites[if j < i then j else j + 1];
      assert SiteOk(c, if j < i then j else j + 1);
    }
    forall k | k in d.overlays ensures HasSite(d, k) {
      assert HasSite(c, k);
      var j :| 0 <= j < |c.sites| && KeyOf(c, c.sites[j].p) == k;
      assert d.sites[if j < i then j else j - 1] == c.sites[j];
    }
  }

  /** The tile is off the map, but its flat index is that of a blueprint that can be cancelled. */
  predicate Strikes(c: Colony, p: Point) {
    !InBounds(p, c.m) && KeyOf(c, p) in c.overlays && c.overlays[KeyOf(c, p)].cancelable
  }

  /** Cancelling keeps the mirror unless it strikes another tile's blueprint: then the overlay goes
      and its site stays. */
  lemma CancelKeepsMirrorIff(c: Colony, p: Point)
    requires WellFormed(c.m) && Mirror(c) && Exclusive(c.sites)
    ensures Mirror(CancelBlueprint(c, p).0)
       <==> KeyOf(c, p) !in c.overlays || !c.overlays[KeyOf(c, p)].cancelable || InBounds(p, c.m)
    ensures Exclusive(CancelBlueprint(c, p).0.sites)
  {
    var d := CancelBlueprint(c, p).0;
    if CancelBlueprint(c, p).1.ok {
      if InBounds(p, c.m) {
        FindsSite(c, p);
        RemovalKeepsMirror(c, d, SiteIndex(c.sites, p));
      } else {
        NoSiteOffMap(c, p);
        assert HasSite(c, KeyOf(c, p));
        var i :| 0 <= i < |c.sites| && KeyOf(c, c.sites[i].p) == KeyOf(c, p);
        assert d.sites == c.sites && !SiteOk(d, i);
      }
    }
  }

  lemma NoSiteOffMap(c: Colony, p: Point)
    requires Mirror(c) && !InBounds(p, c.m)
    ensures SiteIndex(c.sites, p) == |c.sites|
  {
    forall i | 0 <= i < |c.sites| ensures c.sites[i].p != p {
      assert SiteOk(c, i);
    }
  }

  /** Placing a blueprint and cancelling it again restores stores, overlays, tiles and site list. */
  lemma PlaceThenCancelRestores(c: Colony, tool: Tool, p: Point)
    requires ValidOverlays(c) && Mirror(c) && PlaceToolAt(c, tool, p).1.phase == BlueprintPhase
    ensures var d := PlaceToolAt(c, tool, p).0;
      && CancelBlueprint(d, p).1 == Outcome(true, Fine, CancelPhase)
      && CancelBlueprint(d, p).0 == c.(log := d.log + [Cancelled(p)])
  {
    var o := NewOverlay(tool, EvaluatePreview(c.m, c.resources, tool, p));
    NewOverlayFits(c, tool, p);
    assert PlaceToolAt(c, tool, p).0 == WriteBlueprint(c, p, o) && CanAfford(c.resources, o.cost) && o.cancelable;
    hide PlaceToolAt, EvaluatePreview, NewOverlay;
    NoSiteWithoutOverlay(c, p);
    WriteThenCancel(c, p, o);
  }

  lemma WriteThenCancel(c: Colony, p: Point, o: Overlay)
    requires NonNegative(o.cost) && CanAfford(c.resources, o.cost) && o.cancelable
    requires KeyOf(c, p) !in c.overlays && SiteIndex(c.sites, p) == |c.sites|
    ensures var d := WriteBlueprint(c, p, o);
      && CancelBlueprint(d, p).1 == Outcome(true, Fine, CancelPhase)
      && CancelBlueprint(d, p).0 == c.(log := d.log + [Cancelled(p)])
  {
    var d := WriteBlueprint(c, p, o);
    SpendThenRefund(c.resources, o.cost);
    AppendThenSplice(c.sites, SiteOf(p, o));
    hide Spend, Refund, ToIndex, SiteIndex, RemoveAt;
    assert d.overlays - {KeyOf(c, p)} == c.overlays;
  }

  lemma {:induction false} LastSiteIndex(sites: seq<Site>, s: Site)
    requires SiteIndex(sites, s.p) == |sites|
    ensures SiteIndex(sites + [s], s.p) == |sites|
  {
    if sites != [] {
      LastSiteIndex(sites[1..], s);
      assert (sites + [s])[1..] == sites[1..] + [s];
    }
  }

  lemma AppendThenSplice(sites: seq<Site>, s: Site)
    requires SiteIndex(sites, s.p) == |sites|
    ensures RemoveAt(sites + [s], SiteIndex(sites + [s], s.p)) == sites
  {
    LastSiteIndex(sites, s);
  }

  /** Placing keeps the invariant unless it erases what an off-map tile strikes. */
  lemma PlacementKeepsMirrorIff(c: Colony, tool: Tool, p: Point)
    requires ValidSites(c)
    ensures ValidSites(PlaceToolAt(c, tool, p).0) <==> !(tool == Erase && Strikes(c, p))
  {
    PlacementKeepsLedger(c, tool, p);
    if tool == Erase && OverlayAt(c, p).Some? {
      CancelKeepsMirrorIff(c, p);
    } else {
      var preview := EvaluatePreview(c.m, c.resources, tool, p);
      if preview.reason == Fine && Refusal(c, tool, p, preview) == Fine {
        NewOverlayFits(c, tool, p);
        WritingKeepsMirror(c, p, NewOverlay(tool, preview));
      }
    }
  }

  // ---- work and builders -------------------------------------------------------------------

  /** Rewriting the overlay under site i, and the site with it, to the same new contents. */
  lemma RewriteKeepsMirror(c: Colony, d: Colony, i: nat, o: Overlay)
    requires WellFormed(c.m) && Mirror(c) && i < |c.sites|
    requires d.m == c.m && d.overlays == c.overlays[KeyOf(c, c.sites[i].p) := o]
    requires d.sites == c.sites[i := SiteOf(c.sites[i].p, o)]
    ensures Mirror(d)
  {
    var p := c.sites[i].p;
    assert SiteOk(c, i);
    forall j | 0 <= j < |d.sites| ensures SiteOk(d, j) {
      assert SiteOk(c, j);
      if j != i && KeyOf(c, c.sites[j].p) == KeyOf(c, p) { SamePlace(c, c.sites[j].p, p); }
    }
    forall k | k in d.overlays ensures HasSite(d, k) {
      if k != KeyOf(c, p) {
        assert HasSite(c, k);
        var j :| 0 <= j < |c.sites| && KeyOf(c, c.sites[j].p) == k;
        assert d.sites[j].p == c.sites[j].p;
      } else {
        assert d.sites[i].p == p;
      }
    }
  }

  /** Work on an off-map tile whose flat index is a blueprint's, when it changes the work done. */
  predicate WorksAstray(c: Colony, p: Point, dt: real) {
    && !InBounds(p, c.m) && KeyOf(c, p) in c.overlays
    && !(c.overlays[KeyOf(c, p)].workApplied >= 0.0 && dt <= 0.0)
  }

  /** Work keeps the invariant unless it goes to another tile's blueprint: then the overlay grows and
      its site does not. */
  lemma WorkKeepsMirrorIff(c: Colony, p: Point, dt: real)
    requires ValidSites(c)
    ensures ValidSites(ApplyWork(c, p, dt)) <==> !WorksAstray(c, p, dt)
  {
    var d := ApplyWork(c, p, dt);
    WorkKeepsLedger(c, p, dt);
    SameLedgerKeepsPotential(c, d);
    if OverlayAt(c, p).Some? {
      var o := OverlayAt(c, p).value;
      var worked := o.(workApplied := Positive(o.workApplied) + Positive(dt));
      if InBounds(p, c.m) {
        FindsSite(c, p);
        assert SiteOk(c, SiteIndex(c.sites, p));
        RewriteKeepsMirror(c, d, SiteIndex(c.sites, p), worked);
      } else {
        NoSiteOffMap(c, p);
        assert HasSite(c, KeyOf(c, p));
        var i :| 0 <= i < |c.sites| && KeyOf(c, c.sites[i].p) == KeyOf(c, p);
        assert SiteOk(c, i) && d.sites == c.sites;
        if WorksAstray(c, p, dt) {
          assert worked.workApplied != o.workApplied;
          assert !SiteOk(d, i);
        } else {
          assert worked == o && d.overlays == c.overlays;
        }
      }
    }
  }

  /** Both happen: on a map two cells wide, (-1, 1) has the flat index of (1, 0). */
  lemma AliasingBreaksMirror() returns (c: Colony, p: Point)
    ensures ValidSites(c) && !InBounds(p, c.m) && CancelBlueprint(c, p).1.ok
    ensures !Mirror(CancelBlueprint(c, p).0) && !ValidSites(ApplyWork(c, p, 1.0))
  {
    var m := Terrain(2, 1, [GRASS, GRASS]);
    var empty := Colony(m, Resources(0.0, 1.0, 0.0), map[], [], []);
    assert ValidSites(empty);
    PlacementKeepsMirrorIff(empty, Road, Point(1, 0));
    c, p := PlaceToolAt(empty, Road, Point(1, 0)).0, Point(-1, 1);
    CancelKeepsMirrorIff(c, p);
    WorkKeepsMirrorIff(c, p, 1.0);
  }

  lemma ReserveKeepsMirror(c: Colony, w: Option<WorkerId>, x: real, z: real)
    requires ValidSites(c) && Assigned(c.sites, w, x, z).Some?
    ensures ValidSites(Reserve(c, w, Assigned(c.sites, w, x, z).value))
  {
    var i := Assigned(c.sites, w, x, z).value;
    ReserveKeepsLedger(c, w, i);
    SameLedgerKeepsPotential(c, Reserve(c, w, i));
    assert SiteOk(c, i);
    var o := OverlayAt(c, c.sites[i].p).value;
    if HeldBy(c.sites[i], w) {
      assert Reserve(c, w, i).sites == c.sites;
    } else {
      RewriteKeepsMirror(c, Reserve(c, w, i), i, o.(builder := w));
    }
  }

  lemma {:induction false} ReleaseKeepsMirror(c: Colony, w: Option<WorkerId>, n: nat)
    requires ValidSites(c) && n <= |c.sites|
    ensures ValidSites(Release(c, w, n))
  {
    if n > 0 {
      ReleaseKeepsMirror(c, w, n - 1);
      ReleaseKeepsLedger(c, w, n);
      SameLedgerKeepsPotential(c, Release(c, w, n));
      var d := Release(c, w, n - 1);
      if HeldBy(d.sites[n - 1], w) {
        assert SiteOk(d, n - 1);
        var o := OverlayAt(d, d.sites[n - 1].p).value;
        RewriteKeepsMirror(d, Release(c, w, n), n - 1, o.(builder := None));
      }
    }
  }

  // ---- completion -----------------------------------------------------------------------------

  lemma VisitKeepsMirror(c: Colony, i: nat, alive: set<WorkerId>)
    requires ValidSites(c) && i < |c.sites|
    ensures ValidSites(Visit(c, i, alive)) && NoMorePotential(c, Visit(c, i, alive))
  {
    var p, d := c.sites[i].p, Visit(c, i, alive);
    assert SiteOk(c, i);
    VisitLowersLedger(c, i, alive);
    var o := OverlayAt(c, p).value;
    if Done(Checked(o, alive)) {
      RemovalKeepsMirror(c, d, i);
    } else {
      RewriteKeepsMirror(c, d, i, Checked(o, alive));
    }
  }

  lemma {:induction false} WalkKeepsMirror(c: Colony, n: nat, alive: set<WorkerId>)
    requires ValidSites(c) && n <= |c.sites|
    ensures ValidSites(Walk(c, n, alive)) && NoMorePotential(c, Walk(c, n, alive))
    decreases n
  {
    if n > 0 {
      VisitKeepsMirror(c, n - 1, alive);
      WalkKeepsMirror(Visit(c, n - 1, alive), n - 1, alive);
    }
  }

  lemma UpdateKeepsMirror(c: Colony, alive: set<WorkerId>, tick: int)
    requires ValidSites(c)
    ensures ValidSites(Update(c, alive, tick)) && NoMorePotential(c, Update(c, alive, tick))
  {
    WalkKeepsMirror(c, |c.sites|, alive);
    UpdateIsWalk(c, alive, tick);
  }

  // ---- the periodic rebuild -------------------------------------------------------------------

  /** Overlays stay covered when none comes without a site and none loses the last site at its index. */
  lemma StaysCovered(c: Colony, d: Colony)
    requires Covered(c) && d.m.width == c.m.width
    requires forall k :: k in d.overlays ==> k in c.overlays || HasSite(d, k)
    requires forall i :: 0 <= i < |c.sites| && KeyOf(c, c.sites[i].p) in d.overlays ==>
               HasSite(d, KeyOf(c, c.sites[i].p))
    ensures Covered(d)
  {
    forall k | k in d.overlays ensures HasSite(d, k) {
      if k in c.overlays {
        var i :| 0 <= i < |c.sites| && KeyOf(c, c.sites[i].p) == k;
      }
    }
  }

  lemma RemovalStaysCovered(c: Colony, d: Colony, i: nat)
    requires Covered(c) && d.m.width == c.m.width && d.sites == RemoveAt(c.sites, i)
    requires forall k :: k in d.overlays ==> k in c.overlays
    requires i < |c.sites| ==> KeyOf(c, c.sites[i].p) !in d.overlays
    ensures Covered(d)
  {
    forall j | 0 <= j < |c.sites| && KeyOf(c, c.sites[j].p) in d.overlays ensures HasSite(d, KeyOf(c, c.sites[j].p)) {
      var at := if j < i then j else j - 1;
      assert d.sites[at] == c.sites[j];
    }
    StaysCovered(c, d);
  }

  lemma SamePlacesStayCovered(c: Colony, d: Colony)
    requires Covered(c) && d.m.width == c.m.width && |d.sites| >= |c.sites|
    requires forall k :: k in d.overlays ==> k in c.overlays || HasSite(d, k)
    requires forall i :: 0 <= i < |c.sites| ==> d.sites[i].p == c.sites[i].p
    ensures Covered(d)
  {
    forall i | 0 <= i < |c.sites| ensures HasSite(d, KeyOf(c, c.sites[i].p)) {
      assert d.sites[i].p == c.sites[i].p;
    }
    StaysCovered(c, d);
  }

  lemma CancelStaysCovered(c: Colony, p: Point)
    requires Covered(c)
    ensures Covered(CancelBlueprint(c, p).0)
  {
    if CancelBlueprint(c, p).1.ok {
      RemovalStaysCovered(c, CancelBlueprint(c, p).0, SiteIndex(c.sites, p));
    }
  }

  lemma PlacementStaysCovered(c: Colony, tool: Tool, p: Point)
    requires Covered(c) && WellFormed(c.m)
    ensures Covered(PlaceToolAt(c, tool, p).0)
  {
    var d, out := PlaceToolAt(c, tool, p).0, PlaceToolAt(c, tool, p).1;
    if out.phase == CancelPhase {
      CancelStaysCovered(c, p);
    } else if out.ok {
      assert d.sites[|c.sites|].p == p;
      SamePlacesStayCovered(c, d);
    }
  }

  lemma {:induction false} ReleaseStaysCovered(c: Colony, w: Option<WorkerId>, n: nat)
    requires Covered(c) && n <= |c.sites|
    ensures Covered(Release(c, w, n))
  {
    if n > 0 {
      ReleaseStaysCovered(c, w, n - 1);
      SamePlacesStayCovered(Release(c, w, n - 1), Release(c, w, n));
    }
  }

  lemma {:induction false} WalkStaysCovered(c: Colony, n: nat, alive: set<WorkerId>)
    requires Covered(c) && WellFormed(c.m) && n <= |c.sites|
    ensures Covered(Walk(c, n, alive))
    decreases n
  {
    if n > 0 {
      var d := Visit(c, n - 1, alive);
      if OverlayAt(c, c.sites[n - 1].p).None? || Done(OverlayAt(c, c.sites[n - 1].p).value) {
        RemovalStaysCovered(c, d, n - 1);
      } else {
        SamePlacesStayCovered(c, d);
      }
      WalkStaysCovered(d, n - 1, alive);
    }
  }

  /** The periodic rebuild never has anything to do: when the walk has emptied the list, no overlay is
      left to rebuild a site from. */
  lemma UpdateIsWalk(c: Colony, alive: set<WorkerId>, tick: int)
    requires Covered(c) && WellFormed(c.m) && c.m.width > 0
    ensures Covered(Update(c, alive, tick)) && Update(c, alive, tick) == Walk(c, |c.sites|, alive)
  {
    WalkStaysCovered(c, |c.sites|, alive);
    var d := Walk(c, |c.sites|, alive);
    if d.sites == [] {
      assert forall k :: !HasSite(d, k);
      assert forall k :: k !in d.overlays;
    }
  }

  // ---- what one tick amounts to -------------------------------------------------------------------

  /** A finished blueprint has become its tile; anything else is as it was, but for a dead builder. */
  ghost predicate Settled(c: Colony, d: Colony, k: int, alive: set<WorkerId>)
    requires |c.m.tiles| == |d.m.tiles|
  {
    0 <= k < |c.m.tiles| ==>
      if k in c.overlays && Done(c.overlays[k]) then
        k !in d.overlays && d.m.tiles[k] == c.overlays[k].target % 256
      else
        && d.m.tiles[k] == c.m.tiles[k] && (k in d.overlays <==> k in c.overlays)
        && (k in c.overlays ==> d.overlays[k] == Checked(c.overlays[k], alive))
  }

  ghost predicate Untouched(c: Colony, d: Colony, k: int)
    requires |c.m.tiles| == |d.m.tiles|
  {
    0 <= k < |c.m.tiles| ==>
      && d.m.tiles[k] == c.m.tiles[k] && (k in d.overlays <==> k in c.overlays)
      && (k in c.overlays ==> d.overlays[k] == c.overlays[k])
  }

  ghost predicate Among(c: Colony, n: nat, k: int)
    requires n <= |c.sites|
  {
    exists i :: 0 <= i < n && KeyOf(c, c.sites[i].p) == k
  }

  lemma VisitSettlesOne(c: Colony, i: nat, alive: set<WorkerId>, k: int)
    requires ValidSites(c) && i < |c.sites|
    ensures k == KeyOf(c, c.sites[i].p) ==> Settled(c, Visit(c, i, alive), k, alive)
    ensures k != KeyOf(c, c.sites[i].p) ==> Untouched(c, Visit(c, i, alive), k)
    ensures Visit(c, i, alive).sites[..i] == c.sites[..i]
  {
    assert SiteOk(c, i);
    PointOfIndexOfPoint(c.sites[i].p, c.m);
  }

  lemma SettledIsStable(c: Colony, d: Colony, e: Colony, k: int, alive: set<WorkerId>)
    requires |c.m.tiles| == |d.m.tiles| == |e.m.tiles|
    ensures Settled(c, d, k, alive) && Untouched(d, e, k) ==> Settled(c, e, k, alive)
    ensures Untouched(c, d, k) && Settled(d, e, k, alive) ==> Settled(c, e, k, alive)
    ensures Untouched(c, d, k) && Untouched(d, e, k) ==> Untouched(c, e, k)
  {
  }

  lemma AmongEarlier(c: Colony, n: nat, alive: set<WorkerId>, k: int)
    requires ValidSites(c) && 0 < n <= |c.sites|
    ensures var d, last := Visit(c, n - 1, alive), KeyOf(c, c.sites[n - 1].p);
      && (Among(c, n, k) <==> Among(d, n - 1, k) || k == last)
      && (k == last ==> !Among(d, n - 1, k))
  {
    var d := Visit(c, n - 1, alive);
    VisitSettlesOne(c, n - 1, alive, k);
    assert forall i :: 0 <= i < n - 1 ==> d.sites[i] == d.sites[..n - 1][i] == c.sites[..n - 1][i] == c.sites[i];
    forall i | 0 <= i < n - 1 ensures KeyOf(c, c.sites[i].p) != KeyOf(c, c.sites[n - 1].p) {
      assert SiteOk(c, i) && SiteOk(c, n - 1);
      if KeyOf(c, c.sites[i].p) == KeyOf(c, c.sites[n - 1].p) { SamePlace(c, c.sites[i].p, c.sites[n - 1].p); }
    }
  }

  /** The reverse walk settles exactly the tiles of the sites it visits, each independently. */
  lemma {:induction false} WalkSettles(c: Colony, n: nat, alive: set<WorkerId>, k: int)
    requires ValidSites(c) && n <= |c.sites|
    ensures Among(c, n, k) ==> Settled(c, Walk(c, n, alive), k, alive)
    ensures !Among(c, n, k) ==> Untouched(c, Walk(c, n, alive), k)
    decreases n
  {
    if n == 0 {
      NothingVisited(c, k);
    } else {
      VisitKeepsWidth(c, n - 1, alive);
      hide Settled, Untouched, Among, ValidSites, Visit, WellFormed;
      var d := Visit(c, n - 1, alive);
      VisitKeepsMirror(c, n - 1, alive);
      VisitSettlesOne(c, n - 1, alive, k);
      WalkSettles(d, n - 1, alive, k);
      AmongEarlier(c, n, alive, k);
      SettledIsStable(c, d, Walk(d, n - 1, alive), k, alive);
    }
    hide Settled, Untouched, Among, ValidSites, WellFormed;
  }

  lemma NothingVisited(c: Colony, k: int)
    ensures !Among(c, 0, k) && Untouched(c, c, k)
  {
  }

  /** A tick turns every finished blueprint into its tile and touches no other tile or overlay. */
  lemma UpdateSettlesAll(c: Colony, alive: set<WorkerId>, tick: int)
    requires ValidSites(c)
    ensures forall k :: Settled(c, Update(c, alive, tick), k, alive)
  {
    UpdateIsWalk(c, alive, tick);
    forall k ensures Settled(c, Walk(c, |c.sites|, alive), k, alive) {
      WalkSettles(c, |c.sites|, alive, k);
      if k in c.overlays { assert HasSite(c, k); }
    }
  }

  /** What the finished demolitions among the first n sites pay back. */
  function Payout(c: Colony, n: nat, key: Res): real
    requires n <= |c.sites|
  {
    if n == 0 then 0.0
    else
      var o := OverlayAt(c, c.sites[n - 1].p);
      var pays := o.Some? && Done(o.value) && o.value.kind == Demolish;
      Payout(c, n - 1, key) + (if pays then Get(o.value.refund, key) else 0.0)
  }

  lemma {:induction false} PayoutUntouched(c: Colony, d: Colony, n: nat, key: Res)
    requires n <= |c.sites| && n <= |d.sites| && c.m.width == d.m.width && c.sites[..n] == d.sites[..n]
    requires forall i :: 0 <= i < n ==> OverlayAt(c, c.sites[i].p) == OverlayAt(d, c.sites[i].p)
    ensures Payout(c, n, key) == Payout(d, n, key)
  {
    if n > 0 {
      assert c.sites[n - 1] == c.sites[..n][n - 1] == d.sites[..n][n - 1] == d.sites[n - 1];
      assert c.sites[..n - 1] == c.sites[..n][..n - 1] == d.sites[..n][..n - 1] == d.sites[..n - 1];
      PayoutUntouched(c, d, n - 1, key);
    }
  }

  lemma OthersKeepOverlays(c: Colony, n: nat, alive: set<WorkerId>)
    requires ValidSites(c) && 0 < n <= |c.sites|
    ensures forall i :: 0 <= i < n - 1 ==>
              OverlayAt(c, c.sites[i].p) == OverlayAt(Visit(c, n - 1, alive), c.sites[i].p)
  {
    forall i | 0 <= i < n - 1
      ensures OverlayAt(c, c.sites[i].p) == OverlayAt(Visit(c, n - 1, alive), c.sites[i].p)
    {
      assert SiteOk(c, i) && SiteOk(c, n - 1);
      if KeyOf(c, c.sites[i].p) == KeyOf(c, c.sites[n - 1].p) { SamePlace(c, c.sites[i].p, c.sites[n - 1].p); }
    }
  }

  /** The stores grow by the salvage of the demolitions finished in this walk, and by nothing else. */
  lemma {:induction false} WalkPaysOut(c: Colony, n: nat, alive: set<WorkerId>, key: Res)
    requires ValidSites(c) && n <= |c.sites|
    ensures Get(Walk(c, n, alive).resources, key) == Get(c.resources, key) + Payout(c, n, key)
    decreases n
  {
    hide ValidSites, SiteOk, Visit, OverlayAt, Settled, Untouched, Get, Done, Potential, WellFormed;
    if n > 0 {
      VisitKeepsWidth(c, n - 1, alive);
      var d := Visit(c, n - 1, alive);
      VisitPaysOut(c, n - 1, alive, key);
      VisitSettlesOne(c, n - 1, alive, 0);
      OthersKeepOverlays(c, n, alive);
      VisitKeepsMirror(c, n - 1, alive);
      PayoutUntouched(c, d, n - 1, key);
      WalkPaysOut(d, n - 1, alive, key);
    }
  }

  lemma VisitKeepsWidth(c: Colony, i: nat, alive: set<WorkerId>)
    requires ValidSites(c) && i < |c.sites|
    ensures WellFormed(c.m) && Visit(c, i, alive).m.width == c.m.width
  {
  }

  lemma VisitPaysOut(c: Colony, i: nat, alive: set<WorkerId>, key: Res)
    requires ValidSites(c) && i < |c.sites|
    ensures Get(Visit(c, i, alive).resources, key) ==
      Get(c.resources, key) + (Payout(c, i + 1, key) - Payout(c, i, key))
  {
    assert SiteOk(c, i);
    CostsAreNonNegative(c, KeyOf(c, c.sites[i].p));
    RefundAdds(c.resources, OverlayAt(c, c.sites[i].p).value.refund);
    hide Refund, Get, FitsTile, WriteTile;
  }
}
