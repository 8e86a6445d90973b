/** benchmark/dimensions/resource_allocation_efficiency.py: the one-pass Gini formula on a sorted
    vector, against the definition by pairwise differences. */
module Gini {

  import opened Sums

  function Gap(x: real, y: real): real {
    if x < y then y - x else x - y
  }

  /** The sum of |x - y| over y in s. */
  function GapsTo(s: seq<real>, x: real): real {
    if s == [] then 0.0 else GapsTo(s[..|s| - 1], x) + Gap(x, s[|s| - 1])
  }

  /** The sum of |x - y| over x in s and y in t. */
  function PairGaps(s: seq<real>, t: seq<real>): real {
    if s == [] then 0.0 else PairGaps(s[..|s| - 1], t) + GapsTo(t, s[|s| - 1])
  }

  /** A value times its one-based position. */
  function Placed(v: real, place: nat): real {
    v * place as real
  }

  function Weighted(s: seq<real>): real {
    if s == [] then 0.0 else Weighted(s[..|s| - 1]) + Placed(s[|s| - 1], |s|)
  }

  predicate Ascending(s: seq<real>) {
    forall i, j :: 0 <= i < j < |s| ==> s[i] <= s[j]
  }

  // ---- sorting ------------------------------------------------------------------------

  function Insert(s: seq<real>, x: real): (r: seq<real>)
    ensures multiset(r) == multiset(s) + multiset{x}
  {
    if s == [] || s[|s| - 1] <= x then s + [x]
    else
      assert s == s[..|s| - 1] + [s[|s| - 1]];
      Insert(s[..|s| - 1], x) + [s[|s| - 1]]
  }

  predicate AtMost(s: seq<real>, b: real) {
    forall i :: 0 <= i < |s| ==> s[i] <= b
  }

  lemma {:induction false} InsertAscending(s: seq<real>, x: real, b: real)
    requires Ascending(s) && AtMost(s, b) && x <= b
    ensures Ascending(Insert(s, x)) && AtMost(Insert(s, x), b)
  {
    if s != [] && s[|s| - 1] > x {
      InsertAscending(s[..|s| - 1], x, s[|s| - 1]);
    }
  }

  function Sorted(s: seq<real>): (r: seq<real>)
    ensures multiset(r) == multiset(s)
  {
    if s == [] then []
    else
      assert s == s[..|s| - 1] + [s[|s| - 1]];
      Insert(Sorted(s[..|s| - 1]), s[|s| - 1])
  }

  lemma {:induction false} SortedIsAscending(s: seq<real>)
    ensures Ascending(Sorted(s)) && |Sorted(s)| == |s|
  {
    assert |multiset(Sorted(s))| == |Sorted(s)| && |multiset(s)| == |s|;
    if s != [] {
      SortedIsAscending(s[..|s| - 1]);
      var r, x := Sorted(s[..|s| - 1]), s[|s| - 1];
      var b := if r == [] || r[|r| - 1] < x then x else r[|r| - 1];
      InsertAscending(r, x, b);
    }
  }

  /** The closing formula of the source, from the weighted sum, the total and the length. */
  function Formula(weighted: real, total: real, n: real): real
    requires n > 0.0 && total > 0.0
  {
    2.0 * weighted / (n * total) - (n + 1.0) / n
  }

  function GiniOf(values: seq<real>): real {
    var arr := Sorted(values);
    if values == [] || Sum(arr) <= 0.0 then 0.0
    else
      SortedIsAscending(values);
      Formula(Weighted(arr), Sum(arr), |arr| as real)
  }

  /** The source's loop over the sorted vector. */
  method Cumulate(arr: seq<real>) returns (cumulative: real)
    ensures cumulative == Weighted(arr)
  {
    hide Placed;
    cumulative := 0.0;
    for i := 0 to |arr|
      invariant cumulative == Weighted(arr[..i])
    {
      assert arr[..i + 1][..i] == arr[..i];
      cumulative := cumulative + Placed(arr[i], i + 1);
    }
    assert arr[..|arr|] == arr;
  }

  method Compute(values: seq<real>) returns (g: real)
    ensures g == GiniOf(values)
  {
    if values == [] {
      return 0.0;
    }
    hide Formula, Weighted, Sorted, Ascending, Sum;
    var arr := Sorted(values);
    SortedIsAscending(values);
    var total := Total(arr);
    if total <= 0.0 {
      return 0.0;
    }
    var cumulative := Cumulate(arr);
    g := Formula(cumulative, total, |arr| as real);
  }

  // ---- order does not matter ----------------------------------------------------------------

  lemma {:induction false} SumIsSumOver(s: seq<real>, f: real -> real)
    requires forall y :: f(y) == y
    ensures Sum(s) == SumOver(s, f)
  {
    if s != [] { SumIsSumOver(s[..|s| - 1], f); }
  }

  lemma {:induction false} GapsIsSumOver(s: seq<real>, x: real, f: real -> real)
    requires forall y :: f(y) == Gap(x, y)
    ensures GapsTo(s, x) == SumOver(s, f)
  {
    if s != [] { GapsIsSumOver(s[..|s| - 1], x, f); }
  }

  lemma {:induction false} PairsIsSumOver(s: seq<real>, t: seq<real>, f: real -> real)
    requires forall x :: f(x) == GapsTo(t, x)
    ensures PairGaps(s, t) == SumOver(s, f)
  {
    if s != [] { PairsIsSumOver(s[..|s| - 1], t, f); }
  }

  lemma OrderIrrelevant(s: seq<real>, t: seq<real>, x: real)
    requires multiset(s) == multiset(t)
    ensures |s| == |t| && Sum(s) == Sum(t) && GapsTo(s, x) == GapsTo(t, x)
  {
    var same, gap := y => y, y => Gap(x, y);
    hide Sum, GapsTo, SumOver;
    SumIsSumOver(s, same);
    SumIsSumOver(t, same);
    SumOverOrder(s, t, same);
    GapsIsSumOver(s, x, gap);
    GapsIsSumOver(t, x, gap);
    SumOverOrder(s, t, gap);
  }

  lemma {:induction false} PairsInnerOrder(s: seq<real>, t: seq<real>, t': seq<real>)
    requires multiset(t) == multiset(t')
    ensures PairGaps(s, t) == PairGaps(s, t')
  {
    if s != [] {
      PairsInnerOrder(s[..|s| - 1], t, t');
      OrderIrrelevant(t, t', s[|s| - 1]);
    }
  }

  lemma PairsOuterOrder(s: seq<real>, s': seq<real>, t: seq<real>)
    requires multiset(s) == multiset(s')
    ensures PairGaps(s, t) == PairGaps(s', t)
  {
    var f := x => GapsTo(t, x);
    PairsIsSumOver(s, t, f);
    PairsIsSumOver(s', t, f);
    SumOverOrder(s, s', f);
  }

  lemma PairsOrder(s: seq<real>, t: seq<real>)
    requires multiset(s) == multiset(t)
    ensures PairGaps(s, s) == PairGaps(t, t)
  {
    PairsInnerOrder(s, s, t);
    PairsOuterOrder(s, t, t);
  }

  // ---- the sorted form ----------------------------------------------------------------------------

  lemma {:induction false} PairsGrow(s: seq<real>, t: seq<real>, x: real)
    ensures PairGaps(s, t + [x]) == PairGaps(s, t) + GapsTo(s, x)
  {
    if s != [] {
      PairsGrow(s[..|s| - 1], t, x);
      assert (t + [x])[..|t|] == t;
    }
  }

  /** Adding a value adds its gap to every other value, twice. */
  lemma PairsSnoc(s: seq<real>, x: real)
    ensures PairGaps(s + [x], s + [x]) == PairGaps(s, s) + 2.0 * GapsTo(s, x)
  {
    assert (s + [x])[..|s|] == s;
    PairsGrow(s, s, x);
  }

  /** The gaps g from n values of total t up to a value x above them all. */
  ghost predicate TopGaps(g: real, n: real, x: real, t: real) {
    g == n * x - t
  }

  lemma TopGapsStep(g: real, n: real, x: real, t: real, v: real)
    requires TopGaps(g, n, x, t)
    ensures TopGaps(g + (x - v), n + 1.0, x, t + v)
  {
  }

  lemma {:induction false} GapsToLast(s: seq<real>, x: real)
    requires forall i :: 0 <= i < |s| ==> s[i] <= x
    ensures TopGaps(GapsTo(s, x), |s| as real, x, Sum(s))
  {
    if s != [] {
      hide TopGaps;
      var front, v := s[..|s| - 1], s[|s| - 1];
      GapsToLast(front, x);
      TopGapsStep(GapsTo(front, x), |front| as real, x, Sum(front), v);
      assert |front| as real + 1.0 == |s| as real;
    }
  }

  /** The pairwise sum p of a vector, from its weighted sum w, its total t and its length n. */
  ghost predicate SortedForm(p: real, w: real, t: real, n: real) {
    p == 4.0 * w - 2.0 * (n + 1.0) * t
  }

  lemma SnocAlgebra(p: real, w: real, t: real, n: nat, x: real, g: real)
    requires SortedForm(p, w, t, n as real) && TopGaps(g, n as real, x, t)
    ensures SortedForm(p + 2.0 * g, w + Placed(x, n + 1), t + x, (n + 1) as real)
  {
    var m := n as real;
    var nx, nt := m * x, m * t;
    assert Placed(x, n + 1) == nx + x;
    assert (m + 1.0) * t == nt + t;
    assert (m + 2.0) * (t + x) == nt + nx + 2.0 * t + 2.0 * x;
  }

  /** On an ascending vector the pairwise sum is a weighted sum. */
  lemma {:induction false} AscendingPairs(s: seq<real>)
    requires Ascending(s)
    ensures SortedForm(PairGaps(s, s), Weighted(s), Sum(s), |s| as real)
  {
    if s != [] {
      hide SortedForm, TopGaps, Placed, Gap, PairGaps;
      var front, x := s[..|s| - 1], s[|s| - 1];
      assert s == front + [x];
      AscendingPairs(front);
      PairsSnoc(front, x);
      GapsToLast(front, x);
      SnocAlgebra(PairGaps(front, front), Weighted(front), Sum(front), |front|, x, GapsTo(front, x));
      assert |front| + 1 == |s|;
    }
  }

  /** The definition of the coefficient: the pairwise sum over 2 n times the total. */
  function Pairwise(p: real, t: real, n: real): real
    requires n > 0.0 && t > 0.0
  {
    assert n * t > 0.0;
    p / (2.0 * (n * t))
  }

  lemma DivideOut(p: real, w: real, t: real, n: real)
    requires n > 0.0 && t > 0.0 && SortedForm(p, w, t, n)
    ensures Formula(w, t, n) == Pairwise(p, t, n)
  {
    var d := n * t;
    assert d > 0.0;
    assert (n + 1.0) / n == (n + 1.0) * t / d;
    assert p / (2.0 * d) == (2.0 * w - (n + 1.0) * t) / d;
  }

  /** The formula equals the mean absolute difference over twice the mean. */
  lemma GiniIsPairwise(values: seq<real>)
    requires Sum(values) > 0.0
    ensures values != [] && GiniOf(values) == Pairwise(PairGaps(values, values), Sum(values), |values| as real)
  {
    var arr := Sorted(values);
    hide SortedForm, Formula, PairGaps, Weighted, Sorted, Pairwise, Ascending;
    SortedIsAscending(values);
    OrderIrrelevant(values, arr, 0.0);
    PairsOrder(values, arr);
    AscendingPairs(arr);
    DivideOut(PairGaps(arr, arr), Weighted(arr), Sum(arr), |arr| as real);
  }

  // ---- what the coefficient means -------------------------------------------------------------------

  /** Two vectors with the same values have the same coefficient. */
  lemma OrderDoesNotMatter(values: seq<real>, other: seq<real>)
    requires multiset(values) == multiset(other)
    ensures GiniOf(values) == GiniOf(other)
  {
    hide SortedForm, Formula, PairGaps, Weighted, Pairwise, Ascending;
    OrderIrrelevant(values, other, 0.0);
    PairsOrder(values, other);
    if Sum(values) > 0.0 {
      GiniIsPairwise(values);
      GiniIsPairwise(other);
    } else {
      NoTotalNoGini(values);
      NoTotalNoGini(other);
    }
  }

  lemma NoTotalNoGini(values: seq<real>)
    requires Sum(values) <= 0.0
    ensures GiniOf(values) == 0.0
  {
    hide Sorted;
    OrderIrrelevant(values, Sorted(values), 0.0);
  }

  predicate NonNegative(s: seq<real>) {
    forall i :: 0 <= i < |s| ==> s[i] >= 0.0
  }

  lemma {:induction false} GapsBounded(s: seq<real>, x: real)
    requires NonNegative(s) && x >= 0.0
    ensures 0.0 <= GapsTo(s, x) && Sum(s) >= 0.0
    ensures Below(GapsTo(s, x), |s| as real, x, Sum(s))
  {
    if s != [] {
      var front, v := s[..|s| - 1], s[|s| - 1];
      GapsBounded(front, x);
      hide Below;
      BelowStep(GapsTo(front, x), |front| as real, x, Sum(front), Gap(x, v), v);
      assert |front| as real + 1.0 == |s| as real;
    }
  }

  /** The gaps g from n values of total t to x are at most n x + t. */
  ghost predicate Below(g: real, n: real, x: real, t: real) {
    g <= n * x + t
  }

  lemma BelowStep(g: real, n: real, x: real, t: real, gap: real, v: real)
    requires Below(g, n, x, t) && gap <= x + v
    ensures Below(g + gap, n + 1.0, x, t + v)
  {
  }

  /** The pairwise sum p of n values of total t is at most 2 (n - 1) t. */
  ghost predicate Spread(p: real, n: real, t: real) {
    0.0 <= p <= 2.0 * ((n - 1.0) * t)
  }

  lemma SpreadStep(p: real, n: real, t: real, g: real, x: real)
    requires n >= 1.0 && Spread(p, n, t) && 0.0 <= g && Below(g, n, x, t)
    ensures Spread(p + 2.0 * g, n + 1.0, t + x)
  {
    assert (n + 1.0 - 1.0) * (t + x) == (n - 1.0) * t + t + n * x;
  }

  lemma {:induction false} PairsBounded(s: seq<real>)
    requires NonNegative(s) && s != []
    ensures Spread(PairGaps(s, s), |s| as real, Sum(s))
  {
    var front, x := s[..|s| - 1], s[|s| - 1];
    assert s == front + [x];
    PairsSnoc(front, x);
    if front == [] {
      assert PairGaps(s, s) == 0.0;
    } else {
      PairsBounded(front);
      GapsBounded(front, x);
      hide Spread, Below, PairGaps, GapsTo;
      SpreadStep(PairGaps(front, front), |front| as real, Sum(front), GapsTo(front, x), x);
      assert |front| as real + 1.0 == |s| as real;
    }
  }

  lemma PairwiseBounded(p: real, t: real, n: real)
    requires n >= 1.0 && t > 0.0 && Spread(p, n, t)
    ensures 0.0 <= Pairwise(p, t, n) <= (n - 1.0) / n
  {
    var d := n * t;
    assert d > 0.0;
    assert (n - 1.0) / n == (n - 1.0) * t / d;
    assert p / (2.0 * d) <= 2.0 * ((n - 1.0) * t) / (2.0 * d);
  }

  /** A vector of n non-negative values has a coefficient in [0, (n - 1) / n]. */
  lemma GiniInRange(values: seq<real>)
    requires values != [] && NonNegative(values)
    ensures 0.0 <= GiniOf(values) <= (|values| as real - 1.0) / |values| as real
  {
    hide SortedForm, Formula, PairGaps, Weighted, Pairwise, Ascending, Spread, GiniOf, NonNegative, Sum;
    if Sum(values) > 0.0 {
      GiniIsPairwise(values);
      PairsBounded(values);
      PairwiseBounded(PairGaps(values, values), Sum(values), |values| as real);
    } else {
      NoTotalNoGini(values);
    }
  }

  function Times(k: real, x: real): real {
    k * x
  }

  function Scaled(s: seq<real>, k: real): (r: seq<real>)
    ensures |r| == |s|
  {
    seq(|s|, i requires 0 <= i < |s| => Times(k, s[i]))
  }

  lemma ScaledFront(s: seq<real>, k: real)
    requires s != []
    ensures Scaled(s, k)[..|s| - 1] == Scaled(s[..|s| - 1], k)
  {
  }

  lemma Distribute(k: real, a: real, b: real)
    ensures Times(k, a + b) == Times(k, a) + Times(k, b) && Times(k, 0.0) == 0.0
  {
  }

  lemma GapScales(x: real, y: real, k: real)
    requires k > 0.0
    ensures Gap(Times(k, x), Times(k, y)) == Times(k, Gap(x, y))
  {
  }

  lemma {:induction false} GapsScale(s: seq<real>, x: real, k: real)
    requires k > 0.0
    ensures Sum(Scaled(s, k)) == Times(k, Sum(s))
    ensures GapsTo(Scaled(s, k), Times(k, x)) == Times(k, GapsTo(s, x))
  {
    hide Gap, Times;
    if s == [] {
      Distribute(k, 0.0, 0.0);
    } else {
      var front, v := s[..|s| - 1], s[|s| - 1];
      GapsScale(front, x, k);
      GapScales(x, v, k);
      ScaledFront(s, k);
      Distribute(k, GapsTo(front, x), Gap(x, v));
      Distribute(k, Sum(front), v);
    }
  }

  lemma {:induction false} PairsScale(s: seq<real>, t: seq<real>, k: real)
    requires k > 0.0
    ensures PairGaps(Scaled(s, k), Scaled(t, k)) == Times(k, PairGaps(s, t))
  {
    hide Gap, GapsTo, Times;
    if s == [] {
      Distribute(k, 0.0, 0.0);
    } else {
      var front, v := s[..|s| - 1], s[|s| - 1];
      PairsScale(front, t, k);
      GapsScale(t, v, k);
      ScaledFront(s, k);
      Distribute(k, PairGaps(front, t), GapsTo(t, v));
    }
  }

  lemma PairwiseScales(p: real, t: real, n: real, k: real)
    requires n > 0.0 && t > 0.0 && k > 0.0
    ensures Times(k, t) > 0.0 && Pairwise(Times(k, p), Times(k, t), n) == Pairwise(p, t, n)
  {
    var d := 2.0 * (n * t);
    assert n * t > 0.0;
    assert 2.0 * (n * (k * t)) == k * d;
    assert k * d > 0.0;
    assert (k * p) / (k * d) == p / d;
  }

  lemma StaysEmpty(t: real, k: real)
    requires k > 0.0 && t <= 0.0
    ensures Times(k, t) <= 0.0
  {
  }

  lemma SomeTotal(values: seq<real>)
    requires Sum(values) > 0.0
    ensures values != []
  {
  }

  /** Multiplying every value by the same positive factor changes nothing. */
  lemma ScaleDoesNotMatter(values: seq<real>, k: real)
    requires k > 0.0
    ensures GiniOf(Scaled(values, k)) == GiniOf(values)
  {
    hide SortedForm, Formula, PairGaps, Weighted, Pairwise, Ascending, GiniOf, Sum, Scaled, Times;
    GapsScale(values, 0.0, k);
    PairsScale(values, values, k);
    if Sum(values) > 0.0 {
      SomeTotal(values);
      PairwiseScales(PairGaps(values, values), Sum(values), |values| as real, k);
      GiniIsPairwise(values);
      GiniIsPairwise(Scaled(values, k));
    } else {
      StaysEmpty(Sum(values), k);
      NoTotalNoGini(values);
      NoTotalNoGini(Scaled(values, k));
    }
  }
}
