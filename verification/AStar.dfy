/** simulation/navigation/a_star.py: best-first search with a closed set, a lazily
    cleaned heap and no reopening. */
module AStar {
  import opened Wrappers
  import opened Tiles
  import opened Routes
  import opened StepCosts
  import opened LazyHeap

  /** The fixed inputs of one search: step costs of the enterable tiles, endpoints, and the
      row-major numbering of the map's cells with its inverse. */
  datatype Query = Query(f: map<Point, real>, start: Point, goal: Point, index: map<Point, int>, at: map<int, Point>)

  ghost predicate ValidQuery(q: Query) {
    && q.f.Keys <= q.index.Keys
    && q.start in q.index && q.goal in q.index
    && (forall p :: p in q.index ==> q.index[p] in q.at && q.at[q.index[p]] == p)
    && (forall k :: k in q.at ==> q.at[k] in q.index && q.index[q.at[k]] == k)
  }

  /** The numbering is the flat index of a map of this width. */
  ghost predicate RowMajor(q: Query, width: nat) {
    width > 0 && forall k :: k in q.at ==> k >= 0 && q.at[k] == OfIndex(k, width)
  }

  function Heuristic(a: Point, b: Point): real {
    Manhattan(a, b) as real
  }

  // ---- labels: g_score, came_from, closed ----------------------------------

  /** `rank` numbers the closed nodes in the order of their closing. */
  datatype Labels = Labels(g: map<int, real>, from: map<int, int>, closed: set<int>, rank: map<int, nat>)

  ghost predicate ValidLabels(q: Query, l: Labels)
    requires ValidQuery(q)
  {
    Tree(q, l) && Ranked(l)
  }

  ghost predicate Tree(q: Query, l: Labels)
    requires ValidQuery(q)
  {
    var s := q.index[q.start];
    && s in l.g && l.g[s] == 0.0 && s !in l.from && l.g.Keys == l.from.Keys + {s}
    && (forall k :: k in l.g ==> k in q.at)
    && l.closed <= l.g.Keys && (l.closed != {} ==> s in l.closed)
    && (forall k :: k in l.from ==> ValidParent(q, l, k))
  }

  /** Parents are closed before their children. */
  ghost predicate Ranked(l: Labels) {
    && l.rank.Keys == l.closed
    && (forall k :: k in l.closed ==> l.rank[k] < |l.closed|)
    && (forall k :: k in l.from ==> l.from[k] in l.closed)
    && (forall k :: k in l.from && k in l.closed ==> l.rank[l.from[k]] < l.rank[k])
  }

  /** A labelled node hangs off a closed neighbour, and its label is what the step cost. */
  ghost predicate ValidParent(q: Query, l: Labels, k: int)
    requires ValidQuery(q) && k in l.from
  {
    var p := l.from[k];
    && p in l.closed && p in l.g && k in l.g && p in q.at && k in q.at
    && Adjacent(q.at[p], q.at[k]) && q.at[k] in q.f
    && l.g[k] == l.g[p] + q.f[q.at[k]]
  }

  /** No enterable neighbour of c in the first n directions is open with a worse label than
      the step from c would give it. */
  ghost predicate Relaxed(q: Query, l: Labels, c: int, n: nat)
    requires ValidQuery(q) && n <= 4
  {
    c in l.g && c in q.at && forall d :: 0 <= d < n ==> RelaxedTowards(q, l, c, d)
  }

  ghost predicate RelaxedTowards(q: Query, l: Labels, c: int, d: nat)
    requires ValidQuery(q) && d < 4 && c in l.g && c in q.at
  {
    var p := Neighbour(q.at[c], d);
    p in q.f && q.index[p] !in l.closed ==> q.index[p] in l.g && l.g[q.index[p]] <= l.g[c] + q.f[p]
  }

  ghost predicate AllRelaxed(q: Query, l: Labels, except: set<int>)
    requires ValidQuery(q)
  {
    forall c :: c in l.closed && c !in except ==> Relaxed(q, l, c, 4)
  }

  /** The heap agrees with the labels: every open labelled node is queued with g plus distance. */
  ghost predicate ValidHeap(q: Query, l: Labels, heap: set<Entry>, queue: map<int, Entry>, counter: nat)
    requires ValidQuery(q)
  {
    && Refines(heap, l.closed, queue, counter)
    && queue.Keys == l.g.Keys - l.closed
    && forall k :: k in queue ==> k in q.at && queue[k].f == l.g[k] + Manhattan(q.at[k], q.goal) as real
  }

  // ---- reconstructed paths ---------------------------------------------------

  /** The path that following parents back from k spells, start first. */
  function Chain(q: Query, l: Labels, k: int): seq<Point>
    requires ValidQuery(q) && ValidLabels(q, l) && k in l.closed
    decreases l.rank[k]
  {
    if k in l.from then Chain(q, l, l.from[k]) + [q.at[k]] else [q.at[k]]
  }

  lemma AppendStep(f: map<Point, real>, path: seq<Point>, p: Point)
    requires |path| > 0 && Walkable(f.Keys, path) && p in f && Adjacent(path[|path| - 1], p)
    ensures Walkable(f.Keys, path + [p])
    ensures Cost(f, path + [p]) == Cost(f, path) + f[p]
  {
    assert (path + [p])[..|path|] == path;
  }

  /** The reconstructed path is a simple route whose summed step costs equal the label. */
  lemma {:induction false} ChainIsRoute(q: Query, l: Labels, k: int)
    requires ValidQuery(q) && ValidLabels(q, l) && k in l.closed
    ensures IsRoute(q.f.Keys, q.start, q.at[k], Chain(q, l, k))
    ensures Cost(q.f, Chain(q, l, k)) == l.g[k]
    ensures Simple(Chain(q, l, k)) && |Chain(q, l, k)| <= l.rank[k] + 1
    ensures forall p :: p in Chain(q, l, k) ==>
              p in q.index && q.index[p] in l.closed && l.rank[q.index[p]] <= l.rank[k]
    decreases l.rank[k]
  {
    if k in l.from {
      var front := Chain(q, l, l.from[k]);
      ChainIsRoute(q, l, l.from[k]);
      assert ValidParent(q, l, k);
      AppendStep(q.f, front, q.at[k]);
    }
  }

  function Reverse(s: seq<Point>): (r: seq<Point>)
    ensures |r| == |s|
  {
    if s == [] then [] else Reverse(s[1..]) + [s[0]]
  }

  lemma {:induction false} ReverseSnoc(s: seq<Point>, p: Point)
    ensures Reverse(s + [p]) == [p] + Reverse(s)
  {
    if s == [] {
    } else {
      ReverseSnoc(s[1..], p);
      assert (s + [p])[1..] == s[1..] + [p];
    }
  }

  method ReconstructPath(from: map<int, int>, goal: int, width: nat, ghost q: Query, ghost l: Labels)
    returns (path: seq<Point>)
    requires ValidQuery(q) && ValidLabels(q, l) && goal in l.closed
    requires from == l.from && RowMajor(q, width)
    ensures path == Chain(q, l, goal)
  {
    var out: seq<Point> := [];
    var cur := Some(goal);
    while cur.Some? && cur.value >= 0
      invariant cur.Some? ==> cur.value in l.closed && Chain(q, l, goal) == Chain(q, l, cur.value) + Reverse(out)
      invariant cur.None? ==> Chain(q, l, goal) == Reverse(out)
      decreases if cur.Some? then l.rank[cur.value] + 1 else 0
    {
      var k := cur.value;
      ReverseSnoc(out, q.at[k]);
      assert k in from ==> ValidParent(q, l, k);
      assert Chain(q, l, k) + Reverse(out)
          == (if k in from then Chain(q, l, from[k]) else []) + ([q.at[k]] + Reverse(out));
      out := out + [Point(k % width, k / width)];
      cur := if k in from then Some(from[k]) else None;
    }
    path := Reverse(out);
  }

  // ---- the weighted bound ------------------------------------------------------

  /** Closed labels are no more than any route would cost with its cheap steps charged as one. */
  ghost predicate Dominates(q: Query, l: Labels)
    requires ValidQuery(q) && l.closed <= l.g.Keys
  {
    forall k, path :: k in l.closed && k in q.at && IsRoute(q.f.Keys, q.start, q.at[k], path)
      ==> l.g[k] <= Cost(Floored(q.f), path)
  }

  lemma RouteStaysOnMap(q: Query, b: Point, path: seq<Point>)
    requires ValidQuery(q) && IsRoute(q.f.Keys, q.start, b, path)
    ensures forall i :: 0 <= i < |path| ==> path[i] in q.index
  {
    forall i | 0 <= i < |path| ensures path[i] in q.index {
      assert i > 0 ==> path[i] in q.f;
    }
  }

  /** A route from a closed to an open node crosses the frontier somewhere. */
  lemma FrontierCrossing(q: Query, closed: set<int>, path: seq<Point>) returns (j: nat)
    requires |path| > 0 && (forall i :: 0 <= i < |path| ==> path[i] in q.index)
    requires q.index[path[0]] in closed && q.index[path[|path| - 1]] !in closed
    ensures 0 < j < |path| && q.index[path[j - 1]] in closed && q.index[path[j]] !in closed
  {
    j := |path| - 1;
    while q.index[path[j - 1]] !in closed
      invariant 0 < j < |path| && q.index[path[j]] !in closed
      decreases j
    {
      j := j - 1;
    }
  }

  /** The labels just past the frontier crossing of a route account for the route so far. */
  lemma CrossingLabel(q: Query, l: Labels, b: Point, path: seq<Point>, j: nat)
    requires ValidQuery(q) && ValidLabels(q, l) && AllRelaxed(q, l, {})
    requires IsRoute(q.f.Keys, q.start, b, path) && 0 < j < |path|
    requires path[j - 1] in q.index && path[j] in q.index
    requires q.index[path[j - 1]] in l.closed && q.index[path[j]] !in l.closed
    ensures q.index[path[j]] in l.g
    ensures l.g[q.index[path[j]]] <= l.g[q.index[path[j - 1]]] + q.f[path[j]]
  {
    var c := q.index[path[j - 1]];
    var d := DirectionTo(path[j - 1], path[j]);
    assert Relaxed(q, l, c, 4) && RelaxedTowards(q, l, c, d);
  }

  /** Of the open nodes, k has the least label plus distance. */
  ghost predicate Frontmost(q: Query, l: Labels, k: int)
    requires ValidQuery(q) && ValidLabels(q, l)
  {
    && k in l.g && k !in l.closed
    && forall n :: n in l.g && n !in l.closed ==>
         l.g[k] + Heuristic(q.at[k], q.goal) <= l.g[n] + Heuristic(q.at[n], q.goal)
  }

  /** The frontmost label is no worse than any crossing label plus the distance left. */
  lemma FrontmostLabel(q: Query, l: Labels, k: int, n: int)
    requires ValidQuery(q) && ValidLabels(q, l) && Frontmost(q, l, k)
    requires n in l.g && n !in l.closed
    ensures l.g[k] <= l.g[n] + Manhattan(q.at[n], q.at[k]) as real
  {
    assert Manhattan(q.at[n], q.goal) <= Manhattan(q.at[n], q.at[k]) + Manhattan(q.at[k], q.goal);
  }

  /** Why no reopening is needed: the open node with the least f-score already satisfies
      the bound against every route to it. */
  lemma PoppedLabelIsBounded(q: Query, l: Labels, k: int, path: seq<Point>)
    requires ValidQuery(q) && ValidLabels(q, l) && AllRelaxed(q, l, {}) && Dominates(q, l)
    requires Frontmost(q, l, k) && l.closed != {}
    requires IsRoute(q.f.Keys, q.start, q.at[k], path)
    ensures l.g[k] <= Cost(Floored(q.f), path)
  {
    RouteStaysOnMap(q, q.at[k], path);
    var j := FrontierCrossing(q, l.closed, path);
    CrossingLabel(q, l, q.at[k], path, j);
    var c, n := q.index[path[j - 1]], q.index[path[j]];
    FrontmostLabel(q, l, k, n);
    assert IsRoute(q.f.Keys, q.start, q.at[c], path[..j]);
    ManhattanBoundsSuffix(Floored(q.f), path, j);
    assert path[..j + 1][..j] == path[..j];
  }

  lemma FirstLabelIsBounded(q: Query, l: Labels, k: int, path: seq<Point>)
    requires ValidQuery(q) && ValidLabels(q, l) && l.closed == {} && k in l.g
    requires IsRoute(q.f.Keys, q.start, q.at[k], path)
    ensures l.g[k] <= Cost(Floored(q.f), path)
  {
    FirstIsStart(q, l, k);
    ManhattanBoundsSuffix(Floored(q.f), path, 0);
  }

  // ---- the steps of the search ---------------------------------------------------

  function Close(l: Labels, k: int): Labels {
    l.(closed := l.closed + {k}, rank := l.rank[k := |l.closed|])
  }

  lemma ClosingKeepsTree(q: Query, l: Labels, k: int)
    requires ValidQuery(q) && ValidLabels(q, l) && k in l.g && k !in l.closed
    ensures ValidLabels(q, Close(l, k))
  {
    ClosingKeepsRanks(l, k);
    forall n | n in l.from ensures ValidParent(q, Close(l, k), n) {
      assert ValidParent(q, l, n);
    }
    hide ValidParent, Ranked;
    if l.closed == {} { FirstIsStart(q, l, k); }
  }

  lemma ClosingKeepsRanks(l: Labels, k: int)
    requires Ranked(l) && k !in l.closed
    ensures Ranked(Close(l, k))
  {
    var l' := Close(l, k);
    assert |l'.closed| == |l.closed| + 1;
    forall n | n in l.from && n in l'.closed ensures l'.rank[l.from[n]] < l'.rank[n] {
      var p := l.from[n];
      assert p in l.closed;
      assert l.rank[p] < |l.closed|;
      assert n != k ==> l.rank[p] < l.rank[n];
    }
  }

  lemma FirstIsStart(q: Query, l: Labels, k: int)
    requires ValidQuery(q) && ValidLabels(q, l) && l.closed == {} && k in l.g
    ensures k == q.index[q.start]
  {
  }

  lemma ClosingKeepsRelaxed(q: Query, l: Labels, k: int)
    requires ValidQuery(q) && AllRelaxed(q, l, {})
    ensures AllRelaxed(q, Close(l, k), {k})
  {
    var l' := Close(l, k);
    forall c | c in l'.closed && c !in {k} ensures Relaxed(q, l', c, 4) {
      assert Relaxed(q, l, c, 4);
      forall d | 0 <= d < 4 ensures RelaxedTowards(q, l', c, d) {
        assert RelaxedTowards(q, l, c, d);
      }
    }
  }

  lemma ClosingKeepsBound(q: Query, l: Labels, k: int)
    requires ValidQuery(q) && ValidLabels(q, l) && AllRelaxed(q, l, {}) && Dominates(q, l)
    requires Frontmost(q, l, k)
    ensures Dominates(q, Close(l, k))
  {
    hide AllRelaxed, Floored, Cost;
    forall n, path | n in Close(l, k).closed && n in q.at && IsRoute(q.f.Keys, q.start, q.at[n], path)
      ensures l.g[n] <= Cost(Floored(q.f), path)
    {
      if n == k {
        if l.closed == {} {
          FirstLabelIsBounded(q, l, k, path);
        } else {
          PoppedLabelIsBounded(q, l, k, path);
        }
      }
    }
  }

  function Improve(l: Labels, cur: int, n: int, tentative: real): Labels {
    l.(g := l.g[n := tentative], from := l.from[n := cur])
  }

  /** The neighbour in direction d is open, and the step from cur would improve its label. */
  ghost predicate Improvable(q: Query, l: Labels, cur: int, d: nat)
    requires ValidQuery(q)
  {
    && cur in l.closed && cur in l.g && cur in q.at && d < 4
    && var p := Neighbour(q.at[cur], d);
       && p in q.f && q.index[p] !in l.closed
       && (q.index[p] in l.g ==> l.g[cur] + q.f[p] < l.g[q.index[p]])
  }

  ghost function Improved(q: Query, l: Labels, cur: int, d: nat): Labels
    requires ValidQuery(q) && Improvable(q, l, cur, d)
  {
    var p := Neighbour(q.at[cur], d);
    Improve(l, cur, q.index[p], l.g[cur] + q.f[p])
  }

  lemma ImprovingKeepsTree(q: Query, l: Labels, cur: int, d: nat)
    requires ValidQuery(q) && ValidLabels(q, l) && Improvable(q, l, cur, d)
    ensures ValidLabels(q, Improved(q, l, cur, d))
  {
    hide Ranked;
    assert Ranked(Improved(q, l, cur, d)) by { ImprovingKeepsRanks(q, l, cur, d); }
    var n := q.index[Neighbour(q.at[cur], d)];
    forall k | k in l.from || k == n ensures ValidParent(q, Improved(q, l, cur, d), k) {
      if k != n { assert ValidParent(q, l, k); }
    }
  }

  lemma ImprovingKeepsRanks(q: Query, l: Labels, cur: int, d: nat)
    requires ValidQuery(q) && Ranked(l) && Improvable(q, l, cur, d)
    ensures Ranked(Improved(q, l, cur, d))
  {
  }

  lemma ImprovingKeepsRelaxed(q: Query, l: Labels, cur: int, d: nat, c: int, n: nat)
    requires ValidQuery(q) && Improvable(q, l, cur, d)
    requires c in l.closed && n <= 4 && Relaxed(q, l, c, n)
    ensures Relaxed(q, Improved(q, l, cur, d), c, n)
  {
    forall e | 0 <= e < n ensures RelaxedTowards(q, Improved(q, l, cur, d), c, e) {
      assert RelaxedTowards(q, l, c, e);
    }
  }

  lemma ImprovingKeepsAllRelaxed(q: Query, l: Labels, cur: int, d: nat)
    requires ValidQuery(q) && AllRelaxed(q, l, {cur}) && Improvable(q, l, cur, d) && Relaxed(q, l, cur, d)
    ensures AllRelaxed(q, Improved(q, l, cur, d), {cur}) && Relaxed(q, Improved(q, l, cur, d), cur, d + 1)
  {
    hide Relaxed, Improved;
    forall c | c in l.closed && c !in {cur} ensures Relaxed(q, Improved(q, l, cur, d), c, 4) {
      ImprovingKeepsRelaxed(q, l, cur, d, c, 4);
    }
    assert Improved(q, l, cur, d).closed == l.closed by { ImprovedFacts(q, l, cur, d); }
    ImprovingKeepsRelaxed(q, l, cur, d, cur, d);
    RelaxOne(q, Improved(q, l, cur, d), cur, d) by { ImprovedFacts(q, l, cur, d); }
  }

  lemma ImprovedFacts(q: Query, l: Labels, cur: int, d: nat)
    requires ValidQuery(q) && Improvable(q, l, cur, d)
    ensures Improved(q, l, cur, d).closed == l.closed
    ensures cur in Improved(q, l, cur, d).g && RelaxedTowards(q, Improved(q, l, cur, d), cur, d)
  {
  }

  lemma RelaxOne(q: Query, l: Labels, cur: int, d: nat)
    requires ValidQuery(q) && d < 4 && Relaxed(q, l, cur, d) && cur in l.g && cur in q.at &&
        RelaxedTowards(q, l, cur, d)
    ensures Relaxed(q, l, cur, d + 1)
  {
  }

  /** With an empty heap the closed nodes are everything reachable from the start. */
  lemma ClosedHoldsEveryRoute(q: Query, l: Labels, b: Point, path: seq<Point>)
    requires ValidQuery(q) && ValidLabels(q, l) && AllRelaxed(q, l, {})
    requires l.g.Keys == l.closed && IsRoute(q.f.Keys, q.start, b, path)
    ensures b in q.index && q.index[b] in l.closed
  {
    RouteStaysOnMap(q, b, path);
    if q.index[b] !in l.closed {
      var j := FrontierCrossing(q, l.closed, path);
      CrossingLabel(q, l, b, path, j);
    }
  }

  // ---- the search ------------------------------------------------------------------

  function CellNumbers(m: Terrain): (index: map<Point, int>)
    requires WellFormed(m)
    ensures index.Keys == Cells(m)
  {
    map p | p in Cells(m) :: ToIndex(p, m.width)
  }

  function CellPoints(m: Terrain): (at: map<int, Point>)
    requires WellFormed(m) && m.width > 0
  {
    map k | 0 <= k < |m.tiles| :: OfIndex(k, m.width)
  }

  lemma QueryOf(m: Terrain, c: Costs, start: Point, goal: Point, startKey: int, goalKey: int)
    returns (q: Query)
    requires WellFormed(m) && Shaped(c, m) && m.width > 0 && InBounds(start, m) && InBounds(goal, m)
    requires startKey == ToIndex(start, m.width) && goalKey == ToIndex(goal, m.width)
    ensures q.f == CostField(m, c) && q.start == start && q.goal == goal
    ensures ValidQuery(q) && SameGraph(q, m, c) && RowMajor(q, m.width)
    ensures startKey == q.index[start] && goalKey == q.index[goal] && q.f.Keys == Enterables(m)
    ensures forall k :: k in q.at ==> 0 <= k < |m.tiles|
  {
    q := Query(CostField(m, c), start, goal, CellNumbers(m), CellPoints(m));
    forall p | InBounds(p, m) ensures q.index[p] in q.at && q.at[q.index[p]] == p && SameCell(q, m, c, p) {
      PointOfIndexOfPoint(p, m);
    }
    forall k | k in q.at ensures q.at[k] in q.index && q.index[q.at[k]] == k {
      IndexOfPointOfIndex(k, m);
    }
  }

  /** Everything the search keeps, except that the nodes in `pending` may not have had all
      their neighbours relaxed yet. */
  ghost predicate Keeps(q: Query, l: Labels, heap: set<Entry>, queue: map<int, Entry>, counter: nat,
                        pending: set<int>) {
    && ValidQuery(q) && ValidLabels(q, l) && AllRelaxed(q, l, pending) && Dominates(q, l)
    && ValidHeap(q, l, heap, queue, counter)
  }

  /** The query was taken from this map: cells, numbers and step costs agree. */
  ghost predicate SameGraph(q: Query, m: Terrain, c: Costs) {
    && WellFormed(m) && Shaped(c, m)
    && (forall p :: p in q.index ==> InBounds(p, m))
    && (forall p :: InBounds(p, m) ==> SameCell(q, m, c, p))
  }

  ghost predicate SameCell(q: Query, m: Terrain, c: Costs, p: Point)
    requires WellFormed(m) && Shaped(c, m)
  {
    && p in q.index && q.index[p] == ToIndex(p, m.width)
    && 0 <= q.index[p] < |m.tiles| && (p in q.f <==> PassableTile(m.tiles[q.index[p]]))
    && (p in q.f ==> Enterable(m, p) && q.f[p] == StepCost(m, c, p))
  }

  /** The cost of entering a tile the neighbour loop has found open and passable. */
  method CostOfEntering(m: Terrain, c: Costs, p: Point, ghost q: Query) returns (cost: real)
    requires SameGraph(q, m, c) && InBounds(p, m) && p in q.f
    ensures cost == q.f[p]
  {
    assert SameCell(q, m, c, p);
    cost := StepCost(m, c, p);
  }

  /** What the neighbour loop reads off the map about one candidate tile: its key, if the tile is
      on the map, not closed and passable. */
  method OpenKey(m: Terrain, c: Costs, p: Point, closed: set<int>, ghost q: Query) returns (r: Option<int>)
    requires SameGraph(q, m, c) && q.f.Keys <= q.index.Keys
    ensures r.None? ==> p !in q.f || q.index[p] in closed
    ensures r.Some? ==> (p in q.f && q.index[p] !in closed && InBounds(p, m) && r.value == q.index[p])
  {
    if !InBounds(p, m) {
      return None;
    }
    assert SameCell(q, m, c, p);
    var key := ToIndex(p, m.width);
    if key in closed {
      return None;
    }
    if !PassableTile(m.tiles[key]) {
      return None;
    }
    return Some(key);
  }

  lemma StartKeeps(q: Query, e: Entry)
    requires ValidQuery(q) && e == Entry(Heuristic(q.start, q.goal), 0, q.index[q.start])
    ensures Keeps(q, Labels(map[q.index[q.start] := 0.0], map[], {}, map[]), {e}, map[e.key := e], 1, {})
  {
  }

  lemma LeastIsFrontmost(q: Query, l: Labels, heap: set<Entry>, queue: map<int, Entry>, counter: nat, e: Entry)
    requires ValidQuery(q) && ValidLabels(q, l) && ValidHeap(q, l, heap, queue, counter)
    requires IsLeast(e, heap) && e.key !in l.closed
    ensures Frontmost(q, l, e.key) && e.f == l.g[e.key] + Manhattan(q.at[e.key], q.goal) as real
  {
    PopRefinesExtractMin(heap, l.closed, queue, counter, e);
    forall n | n in l.g && n !in l.closed
      ensures e.f <= l.g[n] + Heuristic(q.at[n], q.goal)
    {
      assert n in queue && queue[n] in heap;
    }
  }

  lemma PopKeepsHeap(q: Query, l: Labels, heap: set<Entry>, queue: map<int, Entry>, counter: nat, e: Entry)
    requires ValidQuery(q) && ValidHeap(q, l, heap, queue, counter) && IsLeast(e, heap)
    ensures e.key in l.closed ==> ValidHeap(q, l, heap - {e}, queue, counter)
    ensures e.key !in l.closed ==> ValidHeap(q, Close(l, e.key), heap - {e}, queue - {e.key}, counter)
  {
    PopRefinesExtractMin(heap, l.closed, queue, counter, e);
    if e.key in l.closed {
      assert l.closed + {e.key} == l.closed;
    }
  }

  /** Popping a closed node's entry changes nothing; popping an open node's closes it. */
  lemma PopKeeps(q: Query, l: Labels, heap: set<Entry>, queue: map<int, Entry>, counter: nat, e: Entry)
    requires Keeps(q, l, heap, queue, counter, {}) && IsLeast(e, heap)
    ensures e.key in l.closed ==> Keeps(q, l, heap - {e}, queue, counter, {})
    ensures e.key !in l.closed ==> Keeps(q, Close(l, e.key), heap - {e}, queue - {e.key}, counter, {e.key})
    ensures e.key !in l.closed ==> e.key in q.at
  {
    PopKeepsHeap(q, l, heap, queue, counter, e);
    if e.key !in l.closed {
      LeastIsFrontmost(q, l, heap, queue, counter, e);
      ClosingKeepsTree(q, l, e.key);
      ClosingKeepsRelaxed(q, l, e.key);
      ClosingKeepsBound(q, l, e.key);
    }
  }

  lemma ImprovingKeeps(q: Query, l: Labels, heap: set<Entry>, queue: map<int, Entry>, counter: nat, cur: int, d: nat)
    returns (e: Entry)
    requires Keeps(q, l, heap, queue, counter, {cur}) && Improvable(q, l, cur, d) && Relaxed(q, l, cur, d)
    ensures var p := Neighbour(q.at[cur], d);
      e == Entry(l.g[cur] + q.f[p] + Heuristic(p, q.goal), counter, q.index[p])
    ensures Keeps(q, Improved(q, l, cur, d), heap + {e}, queue[e.key := e], counter + 1, {cur})
    ensures Relaxed(q, Improved(q, l, cur, d), cur, d + 1)
  {
    ImprovingKeepsTree(q, l, cur, d);
    ImprovingKeepsAllRelaxed(q, l, cur, d);
    e := ImprovingKeepsHeap(q, l, heap, queue, counter, cur, d);
    hide ValidLabels, AllRelaxed, Relaxed, ValidHeap, Floored;
  }

  lemma ImprovingKeepsHeap(q: Query, l: Labels, heap: set<Entry>, queue: map<int, Entry>, counter: nat, cur: int,
                           d: nat)
    returns (e: Entry)
    requires ValidQuery(q) && ValidHeap(q, l, heap, queue, counter) && Improvable(q, l, cur, d)
    ensures var p := Neighbour(q.at[cur], d);
      e == Entry(l.g[cur] + q.f[p] + Heuristic(p, q.goal), counter, q.index[p])
    ensures ValidHeap(q, Improved(q, l, cur, d), heap + {e}, queue[e.key := e], counter + 1)
  {
    var p := Neighbour(q.at[cur], d);
    e := Entry(l.g[cur] + q.f[p] + Heuristic(p, q.goal), counter, q.index[p]);
    PushRefinesDecreaseKey(heap, l.closed, queue, counter, e);
  }

  /** The neighbour loop: offers `current` as parent to each enterable open neighbour. */
  method Expand(m: Terrain, c: Costs, goal: Point, current: int, closed: set<int>,
                g0: map<int, real>, from0: map<int, int>, heap0: set<Entry>, counter0: nat,
                ghost q: Query, ghost rank: map<int, nat>, ghost queue0: map<int, Entry>)
    returns (g: map<int, real>, from: map<int, int>, heap: set<Entry>, counter: nat, ghost queue: map<int, Entry>)
    requires SameGraph(q, m, c) && RowMajor(q, m.width) && goal == q.goal && current in closed
    requires Keeps(q, Labels(g0, from0, closed, rank), heap0, queue0, counter0, {current})
    ensures Keeps(q, Labels(g, from, closed, rank), heap, queue, counter, {})
  {
    hide Keeps, ValidQuery, SameGraph, OfIndex, Heuristic, RowMajor;
    g, from, heap, counter, queue := g0, from0, heap0, counter0, queue0;
    CurrentNode(q, Labels(g, from, closed, rank), heap, queue, counter, current, m.width);
    var here := OfIndex(current, m.width);
    for d := 0 to 4
      invariant Keeps(q, Labels(g, from, closed, rank), heap, queue, counter, {current})
      invariant ValidQuery(q) && Relaxed(q, Labels(g, from, closed, rank), current, d)
    {
      var n := Neighbour(here, d);
      ghost var l := Labels(g, from, closed, rank);
      CurrentNode(q, l, heap, queue, counter, current, m.width);
      var key := OpenKey(m, c, n, closed, q);
      if key.None? {
        RelaxOne(q, l, current, d);
        continue;
      }
      var step := CostOfEntering(m, c, n, q);
      var tentative := g[current] + step;
      if key.value !in g || tentative < g[key.value] {
        var e := Entry(tentative + Heuristic(n, goal), counter, key.value);
        ghost var e' := ImprovingKeeps(q, l, heap, queue, counter, current, d);
        from := from[e.key := current];
        g := g[e.key := tentative];
        assert e == e' && Labels(g, from, closed, rank) == Improved(q, l, current, d);
        heap := heap + {e};
        queue := queue[e.key := e];
        counter := counter + 1;
      } else {
        RelaxOne(q, l, current, d);
      }
    }
    AllDirectionsRelaxed(q, Labels(g, from, closed, rank), heap, queue, counter, current);
  }

  lemma AllDirectionsRelaxed(q: Query, l: Labels, heap: set<Entry>, queue: map<int, Entry>, counter: nat, cur: int)
    requires Keeps(q, l, heap, queue, counter, {cur}) && Relaxed(q, l, cur, 4)
    ensures Keeps(q, l, heap, queue, counter, {})
  {
    hide ValidLabels, Dominates, ValidHeap, Relaxed;
  }

  lemma CurrentNode(q: Query, l: Labels, heap: set<Entry>, queue: map<int, Entry>, counter: nat, cur: int, width: nat)
    requires Keeps(q, l, heap, queue, counter, {cur}) && cur in l.closed && RowMajor(q, width)
    ensures width > 0 && cur in l.g && cur in q.at && q.at[cur] == OfIndex(cur, width)
    ensures ValidQuery(q) && q.f.Keys <= q.index.Keys
    ensures Relaxed(q, l, cur, 0)
  {
  }

  // ---- what the bound is worth ---------------------------------------------------------

  /** No route is cheaper than the one found, once its cheap steps are charged as one. */
  ghost predicate BeatsFloored(f: map<Point, real>, start: Point, goal: Point, found: seq<Point>)
    requires IsRoute(f.Keys, start, goal, found)
  {
    forall path :: IsRoute(f.Keys, start, goal, path) ==> Cost(f, found) <= Cost(Floored(f), path)
  }

  /** The route found costs at most 20/13 of any route. */
  ghost predicate NearlyCheapest(f: map<Point, real>, start: Point, goal: Point, found: seq<Point>)
    requires IsRoute(f.Keys, start, goal, found)
  {
    forall path :: IsRoute(f.Keys, start, goal, path) ==> 13.0 * Cost(f, found) <= 20.0 * Cost(f, path)
  }

  ghost predicate Cheapest(f: map<Point, real>, start: Point, goal: Point, found: seq<Point>)
    requires IsRoute(f.Keys, start, goal, found)
  {
    forall path :: IsRoute(f.Keys, start, goal, path) ==> Cost(f, found) <= Cost(f, path)
  }

  /** Weather that does not speed travel up, and no negative height. */
  ghost predicate Temperate(m: Terrain, c: Costs)
    requires Shaped(c, m)
  {
    c.weather >= 1.0 && NoDescent(m, c)
  }

  predicate Roadless(m: Terrain) {
    forall k :: 0 <= k < |m.tiles| ==> m.tiles[k] != ROAD && m.tiles[k] != BRIDGE
  }

  /** What a search promises of the path it returns. */
  ghost predicate WorthTaking(m: Terrain, c: Costs, start: Point, goal: Point, path: seq<Point>)
    requires WellFormed(m) && Shaped(c, m)
  {
    && IsRoute(Enterables(m), start, goal, path) && Simple(path)
    && BeatsFloored(CostField(m, c), start, goal, path)
    && (Temperate(m, c) ==> NearlyCheapest(CostField(m, c), start, goal, path))
    && (Temperate(m, c) && Roadless(m) ==> Cheapest(CostField(m, c), start, goal, path))
  }

  /** In temperate conditions the bound is within 20/13 of any route, and on a map without road or
      bridge the route is a cheapest one. */
  lemma BoundIsWorth(m: Terrain, c: Costs, start: Point, goal: Point, found: seq<Point>)
    requires WellFormed(m) && Shaped(c, m) && Temperate(m, c)
    requires IsRoute(Enterables(m), start, goal, found) && BeatsFloored(CostField(m, c), start, goal, found)
    ensures NearlyCheapest(CostField(m, c), start, goal, found)
    ensures Roadless(m) ==> Cheapest(CostField(m, c), start, goal, found)
  {
    var f := CostField(m, c);
    assert f.Keys == Enterables(m);
    EveryStepCostsARoad(m, c);
    if Roadless(m) {
      WithoutRoadsEveryStepCostsOne(m, c);
      FlooringIsIdentity(f);
    }
    hide CostField, Enterables, Cost, Floored, StepsAtLeast, IsRoute;
    FlooredBoundIsRatio(f, start, goal, found);
  }

  /** A path comes back only if it is a simple route whose cost is bounded by every other
      route with its cheap steps charged as one: in temperate conditions within 20/13 of a cheapest
      one, and cheapest without roads. Its cells are all expanded, so the budget covers them. No path
      comes back only if there is no route, an endpoint is off the map, or the node budget is smaller
      than the map. */
  method Search(m: Terrain, c: Costs, start: Point, goal: Point, maxNodes: int)
    returns (r: Option<seq<Point>>)
    requires WellFormed(m) && Shaped(c, m)
    ensures r.Some? ==> InBounds(start, m) && InBounds(goal, m)
    ensures r.Some? ==> IsRoute(Enterables(m), start, goal, r.value) && Simple(r.value)
    ensures r.Some? ==> BeatsFloored(CostField(m, c), start, goal, r.value)
    ensures r.Some? && Temperate(m, c) ==> NearlyCheapest(CostField(m, c), start, goal, r.value)
    ensures r.Some? && Temperate(m, c) && Roadless(m) ==> Cheapest(CostField(m, c), start, goal, r.value)
    ensures r.Some? && start != goal ==> |r.value| <= maxNodes
    ensures r.None? && InBounds(start, m) && InBounds(goal, m) ==>
              maxNodes < |m.tiles| || !Reachable(Enterables(m), start, goal)
  {
    if m.width <= 0 || m.height <= 0 || !InBounds(start, m) || !InBounds(goal, m) {
      return None;
    }
    var startKey := ToIndex(start, m.width);
    var goalKey := ToIndex(goal, m.width);
    ghost var q := QueryOf(m, c, start, goal, startKey, goalKey);
    hide Keeps, ValidQuery, SameGraph, RowMajor, ToIndex, CostField, Enterables, Cost, IsLeast, Simple,
      BeatsFloored, NearlyCheapest, Cheapest, Temperate, Roadless;
    if startKey == goalKey {
      StayingPut(q);
      if Temperate(m, c) { BoundIsWorth(m, c, start, goal, [start]); }
      return Some([start]);
    }

    var g: map<int, real>, from: map<int, int>, closed: set<int> := map[startKey := 0.0], map[], {};
    ghost var rank: map<int, nat> := map[];
    var first := Entry(Heuristic(start, goal), 0, startKey);
    var heap, counter := {first}, 1;
    ghost var queue := map[startKey := first];
    StartKeeps(q, first);
    var expanded := 0;

    while heap != {}
      invariant Keeps(q, Labels(g, from, closed, rank), heap, queue, counter, {})
      invariant expanded == |closed| && goalKey !in closed && closed <= q.at.Keys
      decreases q.at.Keys - closed, |heap|
    {
      var top, rest := HeapPop(heap);
      PopKeeps(q, Labels(g, from, closed, rank), heap, queue, counter, top);
      heap := rest;
      var current := top.key;
      if current in closed {
        continue;
      }
      queue := queue - {current};
      rank := rank[current := |closed|];
      closed := closed + {current};
      expanded := expanded + 1;
      if expanded > maxNodes {
        SetFits(closed, |m.tiles|);
        return None;
      }
      ghost var l := Labels(g, from, closed, rank);
      if current == goalKey {
        ReachedGoal(q, l, heap, queue, counter);
        var path := ReconstructPath(from, current, m.width, q, l);
        if Temperate(m, c) { BoundIsWorth(m, c, start, goal, path); }
        return Some(path);
      }
      g, from, heap, counter, queue :=
        Expand(m, c, goal, current, closed, g, from, heap, counter, q, rank, queue);
    }
    GoalWasUnreachable(q, Labels(g, from, closed, rank), heap, queue, counter);
    return None;
  }

  lemma StayingPut(q: Query)
    requires ValidQuery(q) && q.index[q.start] == q.index[q.goal]
    ensures IsRoute(q.f.Keys, q.start, q.goal, [q.start]) && Simple([q.start])
    ensures Cost(q.f, [q.start]) == 0.0
    ensures BeatsFloored(q.f, q.start, q.goal, [q.start])
  {
    forall path | IsRoute(q.f.Keys, q.start, q.goal, path) ensures 0.0 <= Cost(Floored(q.f), path) {
      ManhattanBoundsSuffix(Floored(q.f), path, 0);
    }
  }

  lemma ReachedGoal(q: Query, l: Labels, heap: set<Entry>, queue: map<int, Entry>, counter: nat)
    requires ValidQuery(q) && q.index[q.goal] in l.closed
    requires Keeps(q, l, heap, queue, counter, {q.index[q.goal]})
    ensures ValidLabels(q, l)
    ensures var found := Chain(q, l, q.index[q.goal]);
      && IsRoute(q.f.Keys, q.start, q.goal, found) && Simple(found) && BeatsFloored(q.f, q.start, q.goal, found)
      && |found| <= |l.closed|
  {
    ChainIsRoute(q, l, q.index[q.goal]);
  }

  lemma GoalWasUnreachable(q: Query, l: Labels, heap: set<Entry>, queue: map<int, Entry>, counter: nat)
    requires ValidQuery(q) && q.index[q.goal] !in l.closed
    requires Keeps(q, l, heap, queue, counter, {}) && heap == {}
    ensures !Reachable(q.f.Keys, q.start, q.goal)
  {
    EmptyHeapEmptyQueue(heap, l.closed, queue, counter);
    assert l.g.Keys == l.closed;
    if path :| IsRoute(q.f.Keys, q.start, q.goal, path) {
      ClosedHoldsEveryRoute(q, l, q.goal, path);
    }
  }

}
