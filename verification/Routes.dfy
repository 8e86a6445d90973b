/** Routes over a set of enterable tiles, and what they cost. */
module Routes {
  import opened Tiles
  import opened Sums

  function Cells(m: Terrain): (cells: set<Point>)
    ensures forall p :: p in cells <==> InBounds(p, m)
  {
    set x, z | 0 <= x < m.width && 0 <= z < m.height :: Point(x, z)
  }

  function Enterables(m: Terrain): (cells: set<Point>)
    requires WellFormed(m)
    ensures forall p :: p in cells <==> Enterable(m, p)
  {
    set p | p in Cells(m) && Enterable(m, p)
  }

  /** Consecutive tiles are adjacent, and every tile after the first is enterable. */
  predicate Walkable(cells: set<Point>, path: seq<Point>) {
    forall i :: 1 <= i < |path| ==> Adjacent(path[i - 1], path[i]) && path[i] in cells
  }

  predicate IsRoute(cells: set<Point>, a: Point, b: Point, path: seq<Point>) {
    |path| > 0 && path[0] == a && path[|path| - 1] == b && Walkable(cells, path)
  }

  ghost predicate Reachable(cells: set<Point>, a: Point, b: Point) {
    exists path :: IsRoute(cells, a, b, path)
  }

  predicate Simple(path: seq<Point>) {
    forall i, j :: 0 <= i < j < |path| ==> path[i] != path[j]
  }

  /** The sum of the step costs of every tile after the first. */
  function Cost(f: map<Point, real>, path: seq<Point>): real
    requires Walkable(f.Keys, path)
  {
    if |path| <= 1 then 0.0
    else Cost(f, path[..|path| - 1]) + f[path[|path| - 1]]
  }

  predicate StepsAtLeast(f: map<Point, real>, lo: real) {
    forall p :: p in f ==> f[p] >= lo
  }

  lemma AdjacentTriangle(a: Point, b: Point, c: Point)
    requires Adjacent(b, c)
    ensures Manhattan(a, c) <= Manhattan(a, b) + 1
  {
  }

  /** Beyond any point of it, a route whose steps cost one or more costs at least the
      distance left. */
  lemma {:induction false} ManhattanBoundsSuffix(f: map<Point, real>, path: seq<Point>, j: nat)
    requires Walkable(f.Keys, path) && j < |path| && StepsAtLeast(f, 1.0)
    ensures Cost(f, path) >= Cost(f, path[..j + 1]) + Manhattan(path[j], path[|path| - 1]) as real
    decreases |path|
  {
    var n := |path| - 1;
    assert Manhattan(path[n], path[n]) == 0;
    hide Manhattan;
    if j == n {
      assert path[..j + 1] == path;
    } else {
      ManhattanBoundsSuffix(f, path[..n], j);
      assert path[..n][..j + 1] == path[..j + 1];
      AdjacentTriangle(path[j], path[n - 1], path[n]);
      assert Cost(f, path) >= Cost(f, path[..n]) + 1.0;
      hide Cost, Walkable;
    }
  }

  /** The same steps with every cost below one raised to one. */
  function Floored(f: map<Point, real>): (r: map<Point, real>)
    ensures r.Keys == f.Keys && StepsAtLeast(r, 1.0)
  {
    map p | p in f :: if f[p] < 1.0 then 1.0 else f[p]
  }

  lemma FlooringIsIdentity(f: map<Point, real>)
    requires StepsAtLeast(f, 1.0)
    ensures Floored(f) == f
  {
  }

  lemma ShrunkStep(lo: real, c: real)
    requires 0.0 <= lo <= 1.0 && c >= lo
    ensures lo * (if c < 1.0 then 1.0 else c) <= c
  {
    SignOfProduct(1.0 - lo, c);
    assert (1.0 - lo) * c == c - lo * c;
  }

  /** Flooring inflates a route by at most the inverse of its cheapest possible step. */
  lemma {:induction false} FlooringInflatesAtMost(f: map<Point, real>, lo: real, path: seq<Point>)
    requires Walkable(f.Keys, path) && 0.0 <= lo <= 1.0 && StepsAtLeast(f, lo)
    ensures lo * Cost(Floored(f), path) <= Cost(f, path)
  {
    if |path| > 1 {
      var front, p := path[..|path| - 1], path[|path| - 1];
      FlooringInflatesAtMost(f, lo, front);
      ShrunkStep(lo, f[p]);
      var a, b := Cost(Floored(f), front), Floored(f)[p];
      assert lo * (a + b) == lo * a + lo * b;
    }
  }

  lemma FlooredBoundIsRatio(f: map<Point, real>, a: Point, b: Point, found: seq<Point>)
    requires StepsAtLeast(f, 0.65) && IsRoute(f.Keys, a, b, found)
    requires forall path :: IsRoute(f.Keys, a, b, path) ==> Cost(f, found) <= Cost(Floored(f), path)
    ensures forall path :: IsRoute(f.Keys, a, b, path) ==> 13.0 * Cost(f, found) <= 20.0 * Cost(f, path)
  {
    hide Floored, StepsAtLeast, Cost;
    forall path | IsRoute(f.Keys, a, b, path) ensures 13.0 * Cost(f, found) <= 20.0 * Cost(f, path) {
      FlooringInflatesAtMost(f, 0.65, path);
    }
  }

  /** The plain Manhattan heuristic never overestimates a route exactly when no
      tile that can be stepped onto costs less than one. */
  lemma HeuristicAdmissibleIff(m: Terrain, f: map<Point, real>)
    requires WellFormed(m) && f.Keys == Enterables(m)
    ensures (forall a, b, path | InBounds(a, m) && IsRoute(f.Keys, a, b, path) ::
               Cost(f, path) >= Manhattan(a, b) as real)
       <==> (forall a, b | InBounds(a, m) && b in f && Adjacent(a, b) :: f[b] >= 1.0)
  {
    if forall a, b, path | InBounds(a, m) && IsRoute(f.Keys, a, b, path) :: Cost(f, path) >= Manhattan(a, b) as real {
      forall a, b | InBounds(a, m) && b in f && Adjacent(a, b) ensures f[b] >= 1.0 {
        assert IsRoute(f.Keys, a, b, [a, b]);
        assert [a, b][..1] == [a];
        assert Cost(f, [a, b]) == f[b];
      }
    }
    if forall a, b | InBounds(a, m) && b in f && Adjacent(a, b) :: f[b] >= 1.0 {
      forall a, b, path | InBounds(a, m) && IsRoute(f.Keys, a, b, path)
        ensures Cost(f, path) >= Manhattan(a, b) as real
      {
        UnitStepsBoundManhattan(m, f, path);
      }
    }
  }

  lemma {:induction false} UnitStepsBoundManhattan(m: Terrain, f: map<Point, real>, path: seq<Point>)
    requires WellFormed(m) && f.Keys == Enterables(m)
    requires Walkable(f.Keys, path) && |path| > 0 && InBounds(path[0], m)
    requires forall a, b | InBounds(a, m) && b in f && Adjacent(a, b) :: f[b] >= 1.0
    ensures Cost(f, path) >= Manhattan(path[0], path[|path| - 1]) as real
  {
    if |path| > 1 {
      UnitStepsBoundManhattan(m, f, path[..|path| - 1]);
      var n := |path| - 1;
      assert path[n - 1] == path[0] || path[n - 1] in f;
    }
  }
}
