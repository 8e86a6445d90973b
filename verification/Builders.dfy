/** Which site a builder gets, and what reserving and releasing leave behind. */
module Builders {
  import opened Wrappers
  import opened Tiles
  import opened BuildAdvisor
  import opened Construction
  import opened Ledger
  import opened SiteMirror

  /** The site is in nobody's hands: no builder, or one with an empty id. */
  predicate Free(s: Site) {
    s.builder == None || s.builder == Some("")
  }

  /** Steps along the grid from (x, z) to a tile. */
  function Steps(p: Point, x: real, z: real): real {
    (if p.x as real > x then p.x as real - x else x - p.x as real)
    + (if p.z as real > z then p.z as real - z else z - p.z as real)
  }

  /** Site i is the worker's own, and the first such. */
  predicate OwnFirst(sites: seq<Site>, w: Option<WorkerId>, i: nat) {
    i < |sites| && sites[i].builder == w && forall j :: 0 <= j < i ==> sites[j].builder != w
  }

  /** Site i is free, no free one is nearer, and none listed before it is as near. */
  predicate NearestOfFree(sites: seq<Site>, x: real, z: real, i: nat) {
    && i < |sites| && Free(sites[i])
    && (forall j :: 0 <= j < |sites| && Free(sites[j]) ==> Steps(sites[i].p, x, z) <= Steps(sites[j].p, x, z))
    && (forall j :: 0 <= j < i && Free(sites[j]) ==> Steps(sites[i].p, x, z) < Steps(sites[j].p, x, z))
  }

  /** A worker keeps the site it holds; else it gets the nearest free one; else none. */
  lemma AssignedIff(sites: seq<Site>, w: Option<WorkerId>, x: real, z: real, i: nat)
    ensures Assigned(sites, w, x, z) == Some(i) <==>
      OwnFirst(sites, w, i)
      || ((forall j :: 0 <= j < |sites| ==> sites[j].builder != w) && NearestOfFree(sites, x, z, i))
    ensures Assigned(sites, w, x, z) == None <==>
      forall j :: 0 <= j < |sites| ==> sites[j].builder != w && !Free(sites[j])
  {
    NearestFreeIff(sites, x, z, i);
    hide NearestOfFree, NearestFree;
  }

  lemma NearestFreeIff(sites: seq<Site>, x: real, z: real, i: nat)
    ensures NearestFree(sites, |sites|, x, z) == Some(i) <==> NearestOfFree(sites, x, z, i)
    ensures NearestFree(sites, |sites|, x, z) == None <==> forall j :: 0 <= j < |sites| ==> !Free(sites[j])
  {
    assert forall p :: Steps(p, x, z) == Distance(p, x, z);
    assert forall s: Site :: Free(s) == Unassigned(s.builder);
    hide Distance, Steps, Unassigned, Free;
  }

  /** Reserving writes the worker down on that site and on its overlay, and changes no other. */
  lemma ReserveEffect(c: Colony, w: Option<WorkerId>, x: real, z: real, i: nat)
    requires ValidSites(c) && Assigned(c.sites, w, x, z) == Some(i)
    ensures i < |c.sites|
    ensures var d, k := Reserve(c, w, i), ToIndex(c.sites[i].p, c.m.width);
      && k in c.overlays && d == c.(sites := d.sites, overlays := d.overlays)
      && d.sites == c.sites[i := c.sites[i].(builder := w)]
      && d.overlays == c.overlays[k := c.overlays[k].(builder := w)]
  {
    assert SiteOk(c, i);
    hide FitsTile, WellFormed, InBounds;
  }

  /** Having reserved a site, the worker gets the same one again, wherever it asks from. */
  lemma AssignmentSticks(c: Colony, w: Option<WorkerId>, x: real, z: real, i: nat, x': real, z': real)
    requires ValidSites(c) && Assigned(c.sites, w, x, z) == Some(i)
    ensures Assigned(Reserve(c, w, i).sites, w, x', z') == Some(i)
  {
    hide ValidSites, Reserve, OwnFirst, NearestOfFree, Assigned;
    AssignedIff(c.sites, w, x, z, i);
    ReserveEffect(c, w, x, z, i);
    OwnedNow(c.sites, w, x, z, i);
    AssignedIff(Reserve(c, w, i).sites, w, x', z', i);
  }

  lemma OwnedNow(sites: seq<Site>, w: Option<WorkerId>, x: real, z: real, i: nat)
    requires OwnFirst(sites, w, i)
             || ((forall j :: 0 <= j < |sites| ==> sites[j].builder != w) && NearestOfFree(sites, x, z, i))
    ensures i < |sites| && OwnFirst(sites[i := sites[i].(builder := w)], w, i)
  {
  }

  /** The builder of a record after the worker has let go. */
  function LetGo(builder: Option<WorkerId>, w: Option<WorkerId>): Option<WorkerId> {
    if builder == w then None else builder
  }

  /** Releasing clears the worker from every site and from every overlay, and nothing else. */
  lemma ReleaseEffect(c: Colony, w: Option<WorkerId>)
    requires ValidSites(c)
    ensures var d := Release(c, w, |c.sites|);
      && |d.sites| == |c.sites| && d == c.(sites := d.sites, overlays := d.overlays)
      && (forall j :: 0 <= j < |c.sites| ==>
            d.sites[j] == c.sites[j].(builder := LetGo(c.sites[j].builder, w)))
      && d.overlays.Keys == c.overlays.Keys
      && (forall k :: k in c.overlays ==>
            d.overlays[k] == c.overlays[k].(builder := LetGo(c.overlays[k].builder, w)))
  {
    var d := Release(c, w, |c.sites|);
    ReleaseClears(c, w, |c.sites|);
    forall j | 0 <= j < |c.sites|
      ensures d.sites[j] == c.sites[j].(builder := LetGo(c.sites[j].builder, w))
    {
      assert Cleared(c, d, w, |c.sites|, j);
    }
    forall k | k in c.overlays ensures d.overlays[k] == c.overlays[k].(builder := LetGo(c.overlays[k].builder, w)) {
      assert HasSite(c, k);
      var j :| 0 <= j < |c.sites| && KeyOf(c, c.sites[j].p) == k;
      assert Cleared(c, d, w, |c.sites|, j) && SiteOk(c, j);
    }
  }

  /** Site j and its overlay after the first n sites have been looked at. */
  ghost predicate Cleared(c: Colony, d: Colony, w: Option<WorkerId>, n: nat, j: nat)
    requires j < |c.sites| == |d.sites|
  {
    var k, s := KeyOf(c, c.sites[j].p), c.sites[j];
    && d.sites[j] == (if j < n then s.(builder := LetGo(s.builder, w)) else s)
    && k in c.overlays && k in d.overlays
    && d.overlays[k] == (if j < n then c.overlays[k].(builder := LetGo(s.builder, w)) else c.overlays[k])
  }

  lemma {:induction false} ReleaseClears(c: Colony, w: Option<WorkerId>, n: nat)
    requires ValidSites(c) && n <= |c.sites|
    ensures var d := Release(c, w, n);
      && d == c.(sites := d.sites, overlays := d.overlays) && d.overlays.Keys == c.overlays.Keys
      && forall j :: 0 <= j < |c.sites| ==> Cleared(c, d, w, n, j)
  {
    if n == 0 {
      forall j | 0 <= j < |c.sites| ensures Cleared(c, c, w, 0, j) { assert SiteOk(c, j); }
    } else {
      var d := Release(c, w, n - 1);
      ReleaseClears(c, w, n - 1);
      forall j | 0 <= j < |c.sites| ensures Cleared(c, Release(c, w, n), w, n, j) {
        OneMoreCleared(c, d, w, n, j);
      }
    }
    hide ValidSites, Cleared;
  }

  lemma OneMoreCleared(c: Colony, d: Colony, w: Option<WorkerId>, n: nat, j: nat)
    requires ValidSites(c) && 0 < n <= |c.sites| == |d.sites| && j < |c.sites| && d.m == c.m
    requires d == Release(c, w, n - 1) && Cleared(c, d, w, n - 1, j) && Cleared(c, d, w, n - 1, n - 1)
    ensures Cleared(c, Release(c, w, n), w, n, j)
  {
    assert SiteOk(c, n - 1);
    if j != n - 1 { DifferentKeys(c, j, n - 1); }
    hide ValidSites, ToIndex;
  }

  lemma DifferentKeys(c: Colony, i: nat, j: nat)
    requires ValidSites(c) && i < |c.sites| && j < |c.sites| && i != j
    ensures KeyOf(c, c.sites[i].p) != KeyOf(c, c.sites[j].p)
  {
    assert SiteOk(c, i) && SiteOk(c, j);
    if KeyOf(c, c.sites[i].p) == KeyOf(c, c.sites[j].p) { SamePlace(c, c.sites[i].p, c.sites[j].p); }
  }

  /** A tick takes a blueprint that it does not finish away from a builder no longer alive, and from no
      other; work and everything else stay as they are. */
  lemma TickFreesTheDead(c: Colony, alive: set<WorkerId>, tick: int, k: int)
    requires ValidSites(c) && k in c.overlays && k in Update(c, alive, tick).overlays
    ensures var b := c.overlays[k].builder;
      Update(c, alive, tick).overlays[k] ==
        c.overlays[k].(builder := if b.Some? && b.value != "" && b.value !in alive then None else b)
  {
    UpdateSettlesAll(c, alive, tick);
    assert Settled(c, Update(c, alive, tick), k, alive);
    hide Update;
  }
}
