/** benchmark/dimensions/group_dynamics.py: the correlation of two weight vectors and its mean over
    all pairs of groups. Python's `math.sqrt` and `sorted` are parameters. */
module Pearson {
  import opened Wrappers
  import opened Sums

  // ---- the Cauchy-Schwarz bound on the accumulators ---------------------------------------

  function Product(x: real, y: real): real {
    x * y
  }

  function Dot(a: seq<real>, b: seq<real>): real
    requires |a| == |b|
  {
    if a == [] then 0.0 else Dot(a[..|a| - 1], b[..|b| - 1]) + Product(a[|a| - 1], b[|b| - 1])
  }

  ghost predicate Bounded(num: real, a2: real, b2: real) {
    a2 >= 0.0 && b2 >= 0.0 && num * num <= a2 * b2
  }

  /** A product is at most the weighted squares of its factors. */
  lemma CrossTerm(n: real, a2: real, b2: real, a: real, b: real)
    requires Bounded(n, a2, b2)
    ensures 2.0 * (n * (a * b)) <= a2 * (b * b) + b2 * (a * a)
  {
    var x := a2 * (b * b) + b2 * (a * a) - 2.0 * (n * (a * b));
    if a2 == 0.0 {
      assert n != 0.0 ==> n * n > 0.0;
      assert a * a >= 0.0;
    } else {
      var y := a2 * b - n * a;
      CompleteSquare(n, a2, b2, a, b);
      assert y * y >= 0.0;
      NonNegativeFactor(a2, x);
    }
  }

  lemma NonNegativeFactor(a: real, x: real)
    requires a > 0.0 && a * x >= 0.0
    ensures x >= 0.0
  {
  }

  lemma CompleteSquare(n: real, a2: real, b2: real, a: real, b: real)
    requires Bounded(n, a2, b2)
    ensures (a2 * b - n * a) * (a2 * b - n * a) <= a2 * (a2 * (b * b) + b2 * (a * a) - 2.0 * (n * (a * b)))
  {
    var aa := a * a;
    var left := (a2 * b - n * a) * (a2 * b - n * a);
    var p, q := a2 * b, n * a;
    assert (p - q) * (p - q) == p * p - 2.0 * (p * q) + q * q;
    assert p * p == a2 * (a2 * (b * b));
    assert p * q == a2 * (n * (a * b));
    assert q * q == (n * n) * aa;
    assert a2 * (b2 * aa) == (a2 * b2) * aa;
    assert aa >= 0.0;
    assert (a2 * b2 - n * n) * aa >= 0.0;
  }

  lemma BoundedStep(num: real, a2: real, b2: real, a: real, b: real)
    requires Bounded(num, a2, b2)
    ensures Bounded(num + Product(a, b), a2 + Product(a, a), b2 + Product(b, b))
  {
    CrossTerm(num, a2, b2, a, b);
    var ab := a * b;
    assert (num + ab) * (num + ab) == num * num + 2.0 * (num * ab) + ab * ab;
    assert ab * ab == (a * a) * (b * b);
    assert (a2 + a * a) * (b2 + b * b) == a2 * b2 + a2 * (b * b) + b2 * (a * a) + (a * a) * (b * b);
  }

  lemma {:induction false} CauchySchwarz(a: seq<real>, b: seq<real>)
    requires |a| == |b|
    ensures Bounded(Dot(a, b), Dot(a, a), Dot(b, b))
  {
    if a != [] {
      hide Bounded, Product;
      var a', b' := a[..|a| - 1], b[..|b| - 1];
      CauchySchwarz(a', b');
      BoundedStep(Dot(a', b'), Dot(a', a'), Dot(b', b'), a[|a| - 1], b[|b| - 1]);
    }
  }

  // ---- the correlation --------------------------------------------------------------------

  ghost predicate IsRoot(r: real, d: real) {
    r >= 0.0 && r * r == d
  }

  /** `sqrt` takes square roots of non-negative numbers. */
  ghost predicate TakesRoots(sqrt: real -> real) {
    forall d :: d >= 0.0 ==> IsRoot(sqrt(d), d)
  }

  lemma RootPositive(r: real, d: real)
    requires IsRoot(r, d) && d > 0.0
    ensures r > 0.0
  {
  }

  lemma SquareGrows(q: real, r: real)
    requires 0.0 <= q < r
    ensures q * q < r * r
  {
    assert (r - q) * r > 0.0 && (r - q) * q >= 0.0;
  }

  lemma RootUnique(r: real, q: real, d: real)
    requires IsRoot(r, d) && IsRoot(q, d)
    ensures r == q
  {
    if r > q { SquareGrows(q, r); }
    if q > r { SquareGrows(r, q); }
  }

  function Coefficient(num: real, dx2: real, dy2: real, sqrt: real -> real): real
    requires TakesRoots(sqrt) && dx2 >= 0.0 && dy2 >= 0.0
  {
    if dx2 == 0.0 || dy2 == 0.0 then 0.0
    else
      SignOfProduct(dx2, dy2);
      RootPositive(sqrt(Product(dx2, dy2)), Product(dx2, dy2));
      num / sqrt(Product(dx2, dy2))
  }

  function Shifted(s: seq<real>, m: real): (r: seq<real>)
    ensures |r| == |s|
  {
    seq(|s|, i requires 0 <= i < |s| => s[i] - m)
  }

  function Deviations(s: seq<real>): (r: seq<real>)
    requires s != []
    ensures |r| == |s|
  {
    Shifted(s, Sum(s) / |s| as real)
  }

  function Shorter(xs: seq<real>, ys: seq<real>): nat {
    if |xs| < |ys| then |xs| else |ys|
  }

  /** The textbook correlation of the common prefix of two lists. */
  function PearsonOf(xs: seq<real>, ys: seq<real>, sqrt: real -> real): real
    requires TakesRoots(sqrt)
  {
    var n := Shorter(xs, ys);
    if n < 2 then 0.0
    else
      var dx, dy := Deviations(xs[..n]), Deviations(ys[..n]);
      CauchySchwarz(dx, dy);
      Coefficient(Dot(dx, dy), Dot(dx, dx), Dot(dy, dy), sqrt)
  }

  /** The accumulators satisfy num^2 <= dx2 * dy2 after every element. */
  method Accumulate(xs: seq<real>, ys: seq<real>, mx: real, my: real)
    returns (num: real, dx2: real, dy2: real)
    requires |xs| == |ys| && xs != [] && mx == Sum(xs) / |xs| as real && my == Sum(ys) / |ys| as real
    ensures num == Dot(Deviations(xs), Deviations(ys)) && Bounded(num, dx2, dy2)
    ensures dx2 == Dot(Deviations(xs), Deviations(xs)) && dy2 == Dot(Deviations(ys), Deviations(ys))
  {
    ghost var a, b := Deviations(xs), Deviations(ys);
    hide Bounded, Product, Sum;
    num, dx2, dy2 := 0.0, 0.0, 0.0;
    CauchySchwarz([], []);
    for i := 0 to |xs|
      invariant num == Dot(a[..i], b[..i]) && dx2 == Dot(a[..i], a[..i]) && dy2 == Dot(b[..i], b[..i])
      invariant Bounded(num, dx2, dy2)
    {
      var dx := xs[i] - mx;
      var dy := ys[i] - my;
      assert dx == a[i] && dy == b[i];
      assert a[..i + 1][..i] == a[..i] && b[..i + 1][..i] == b[..i];
      BoundedStep(num, dx2, dy2, dx, dy);
      num := num + Product(dx, dy);
      dx2 := dx2 + Product(dx, dx);
      dy2 := dy2 + Product(dy, dy);
    }
    assert a[..|a|] == a && b[..|b|] == b;
  }

  method Correlate(xs: seq<real>, ys: seq<real>, sqrt: real -> real) returns (r: real)
    requires TakesRoots(sqrt)
    ensures r == PearsonOf(xs, ys, sqrt)
  {
    var n := Shorter(xs, ys);
    if n < 2 {
      return 0.0;
    }
    var sx := Total(xs[..n]);
    var sy := Total(ys[..n]);
    var num, dx2, dy2 := Accumulate(xs[..n], ys[..n], sx / n as real, sy / n as real);
    hide Dot, Deviations, TakesRoots, Sum;
    assert dx2 >= 0.0 && dy2 >= 0.0;
    hide Bounded;
    r := Coefficient(num, dx2, dy2, sqrt);
  }

  lemma QuotientInRange(num: real, d: real, r: real)
    requires d > 0.0 && IsRoot(r, d) && num * num <= d
    ensures r > 0.0 && -1.0 <= num / r <= 1.0
  {
    RootPositive(r, d);
    assert num > r ==> num * num > r * r;
    assert num < -r ==> (-num) * (-num) > r * r;
    DivideBounds(num, r, -1.0, 1.0);
  }

  /** The correlation of any two lists lies in [-1, 1]. */
  lemma CorrelationInRange(xs: seq<real>, ys: seq<real>, sqrt: real -> real)
    requires TakesRoots(sqrt)
    ensures -1.0 <= PearsonOf(xs, ys, sqrt) <= 1.0
  {
    var n := Shorter(xs, ys);
    if n >= 2 {
      var dx, dy := Deviations(xs[..n]), Deviations(ys[..n]);
      CauchySchwarz(dx, dy);
      var dx2, dy2 := Dot(dx, dx), Dot(dy, dy);
      hide Dot, Deviations, Sum;
      if dx2 != 0.0 && dy2 != 0.0 {
        SignOfProduct(dx2, dy2);
        QuotientInRange(Dot(dx, dy), Product(dx2, dy2), sqrt(Product(dx2, dy2)));
      }
    }
  }

  lemma {:induction false} DotSymmetric(a: seq<real>, b: seq<real>)
    requires |a| == |b|
    ensures Dot(a, b) == Dot(b, a)
  {
    if a != [] { DotSymmetric(a[..|a| - 1], b[..|b| - 1]); }
  }

  lemma CorrelationSymmetric(xs: seq<real>, ys: seq<real>, sqrt: real -> real)
    requires TakesRoots(sqrt)
    ensures PearsonOf(xs, ys, sqrt) == PearsonOf(ys, xs, sqrt)
  {
    var n := Shorter(xs, ys);
    if n >= 2 {
      DotSymmetric(Deviations(xs[..n]), Deviations(ys[..n]));
    }
  }

  // ---- exactly linear lists ------------------------------------------------------------------

  ghost predicate Linear(xs: seq<real>, ys: seq<real>, k: real, c: real) {
    |xs| == |ys| && forall i :: 0 <= i < |xs| ==> ys[i] == Product(k, xs[i]) + c
  }

  /** The sum t' of n values k x + c, from the sum t of the values x. */
  ghost predicate LinearSum(t: real, t': real, n: real, k: real, c: real) {
    t' == k * t + n * c
  }

  lemma LinearSumStep(t: real, t': real, n: real, k: real, c: real, x: real)
    requires LinearSum(t, t', n, k, c)
    ensures LinearSum(t + x, t' + (Product(k, x) + c), n + 1.0, k, c)
  {
  }

  lemma {:induction false} LinearSums(xs: seq<real>, ys: seq<real>, k: real, c: real)
    requires Linear(xs, ys, k, c)
    ensures LinearSum(Sum(xs), Sum(ys), |xs| as real, k, c)
  {
    if xs != [] {
      var xs', ys' := xs[..|xs| - 1], ys[..|xs| - 1];
      hide LinearSum, Product;
      LinearSums(xs', ys', k, c);
      LinearSumStep(Sum(xs'), Sum(ys'), |xs'| as real, k, c, xs[|xs| - 1]);
      assert |xs'| as real + 1.0 == |xs| as real;
    }
  }

  lemma LinearMean(t: real, t': real, n: real, k: real, c: real, x: real)
    requires n > 0.0 && LinearSum(t, t', n, k, c)
    ensures Product(k, x) + c - t' / n == Product(k, x - t / n)
  {
    assert t' / n == k * (t / n) + c;
  }

  lemma {:induction false} ScaledDots(a: seq<real>, b: seq<real>, k: real)
    requires |a| == |b| && forall i :: 0 <= i < |a| ==> b[i] == Product(k, a[i])
    ensures Dot(a, b) == Product(k, Dot(a, a)) && Dot(b, b) == Product(k, Product(k, Dot(a, a)))
  {
    if a != [] {
      var a', b' := a[..|a| - 1], b[..|b| - 1];
      ScaledDots(a', b', k);
      ScaledStep(k, Dot(a', a'), a[|a| - 1]);
      hide Product;
      assert b[|b| - 1] == Product(k, a[|a| - 1]);
    }
  }

  lemma ScaledStep(k: real, d: real, x: real)
    ensures Product(k, d) + Product(x, Product(k, x)) == Product(k, d + Product(x, x))
    ensures Product(k, Product(k, d)) + Product(Product(k, x), Product(k, x)) ==
        Product(k, Product(k, d + Product(x, x)))
  {
    var xx := x * x;
    assert x * (k * x) == k * xx;
    assert (k * x) * (k * x) == k * (k * xx);
    assert k * (d + xx) == k * d + k * xx;
    assert k * (k * (d + xx)) == k * (k * d) + k * (k * xx);
  }

  /** A numerator whose square is the denominator's square gives 1 or -1. */
  lemma UnitCoefficient(q: real, num: real, d: real, e: real, sqrt: real -> real)
    requires TakesRoots(sqrt) && d > 0.0 && e > 0.0
    requires q > 0.0 && q * q == Product(d, e) && (num == q || num == -q)
    ensures Coefficient(num, d, e, sqrt) == num / q && num / q == if num == q then 1.0 else -1.0
  {
    SignOfProduct(d, e);
    RootUnique(q, sqrt(Product(d, e)), Product(d, e));
  }

  lemma ScaledCoefficient(d: real, k: real, sqrt: real -> real)
    requires TakesRoots(sqrt) && d > 0.0 && k != 0.0
    ensures Product(k, Product(k, d)) > 0.0
    ensures Coefficient(Product(k, d), d, Product(k, Product(k, d)), sqrt) == if k > 0.0 then 1.0 else -1.0
  {
    var kd := k * d;
    assert k > 0.0 ==> kd > 0.0;
    assert k < 0.0 ==> kd < 0.0;
    var q := if k > 0.0 then kd else -kd;
    assert k * kd > 0.0 && q * q == d * (k * kd);
    UnitCoefficient(q, kd, d, k * kd, sqrt);
    assert kd == Product(k, d) && k * kd == Product(k, Product(k, d));
  }

  ghost predicate Constant(s: seq<real>) {
    forall i, j :: 0 <= i < j < |s| ==> s[i] == s[j]
  }

  lemma SquareVanishesIff(x: real)
    ensures Product(x, x) >= 0.0 && (Product(x, x) == 0.0 <==> x == 0.0)
  {
    ZeroProductIff(x, x);
  }

  lemma {:induction false} SquaresVanishIff(a: seq<real>)
    ensures Dot(a, a) >= 0.0
    ensures Dot(a, a) == 0.0 <==> forall i :: 0 <= i < |a| ==> a[i] == 0.0
  {
    if a != [] {
      SquaresVanishIff(a[..|a| - 1]);
      SquareVanishesIff(a[|a| - 1]);
      hide Product;
    }
  }

  lemma {:induction false} ConstantSum(s: seq<real>, c: real)
    requires forall i :: 0 <= i < |s| ==> s[i] == c
    ensures Sum(s) == Product(|s| as real, c)
  {
    if s != [] {
      ConstantSum(s[..|s| - 1], c);
      assert Product((|s| - 1) as real, c) + c == Product(|s| as real, c);
    }
  }

  lemma MeanOfConstant(n: real, c: real)
    requires n > 0.0
    ensures Product(n, c) / n == c
  {
  }

  /** The squared deviations vanish exactly when all values are equal. */
  lemma NoSpreadIffConstant(s: seq<real>)
    requires s != []
    ensures Dot(Deviations(s), Deviations(s)) == 0.0 <==> Constant(s)
  {
    var a, mean := Deviations(s), Sum(s) / |s| as real;
    SquaresVanishIff(a);
    assert forall i :: 0 <= i < |s| ==> a[i] == s[i] - mean;
    hide Product, Dot, Deviations, Sum;
    if Constant(s) {
      assert forall i :: 0 <= i < |s| ==> s[i] == s[0];
      ConstantSum(s, s[0]);
      MeanOfConstant(|s| as real, s[0]);
    }
  }

  /** Lists on a common line correlate fully, unless they are constant. */
  lemma LinearCorrelation(xs: seq<real>, ys: seq<real>, k: real, c: real, sqrt: real -> real)
    requires TakesRoots(sqrt) && |xs| >= 2 && Linear(xs, ys, k, c) && k != 0.0
    ensures PearsonOf(xs, ys, sqrt) == if Constant(xs) then 0.0 else if k > 0.0 then 1.0 else -1.0
  {
    NoSpreadIffConstant(xs);
    LinearUpToSpread(xs, ys, k, c, sqrt);
    hide Dot, Deviations, PearsonOf, Constant, Linear;
  }

  lemma LinearUpToSpread(xs: seq<real>, ys: seq<real>, k: real, c: real, sqrt: real -> real)
    requires TakesRoots(sqrt) && |xs| >= 2 && Linear(xs, ys, k, c) && k != 0.0
    ensures var d := Dot(Deviations(xs), Deviations(xs));
            PearsonOf(xs, ys, sqrt) == if d == 0.0 then 0.0 else if k > 0.0 then 1.0 else -1.0
  {
    var dx, dy := Deviations(xs), Deviations(ys);
    assert xs[..|xs|] == xs && ys[..|xs|] == ys;
    LinearSums(xs, ys, k, c);
    hide Product, Dot, LinearSum, Sum;
    forall i | 0 <= i < |xs| ensures dy[i] == Product(k, dx[i]) {
      LinearMean(Sum(xs), Sum(ys), |xs| as real, k, c, xs[i]);
    }
    hide Deviations;
    ScaledDots(dx, dy, k);
    CauchySchwarz(dx, dx);
    if Dot(dx, dx) != 0.0 {
      ScaledCoefficient(Dot(dx, dx), k, sqrt);
    }
  }

  // ---- the mean coupling ------------------------------------------------------------------------

  type Priorities = map<string, real>

  function Weight(pri: Priorities, key: string): real {
    if key in pri then pri[key] else 0.0
  }

  /** The weights of a policy along the keys; 0 for a missing key. */
  function Aligned(pri: Priorities, keys: seq<string>): (r: seq<real>)
    ensures |r| == |keys|
  {
    seq(|keys|, i requires 0 <= i < |keys| => Weight(pri, keys[i]))
  }

  function Kept(policies: seq<Option<Priorities>>): seq<Priorities> {
    if policies == [] then []
    else
      var front, last := Kept(policies[..|policies| - 1]), policies[|policies| - 1];
      if last.Some? then front + [last.value] else front
  }

  /** The coupling of a pair, unless it has fewer than two keys. */
  function Coupling(a: Priorities, b: Priorities, sorted: set<string> -> seq<string>, sqrt: real -> real): seq<real>
    requires TakesRoots(sqrt)
  {
    var keys := sorted(a.Keys + b.Keys);
    if |keys| < 2 then [] else [PearsonOf(Aligned(a, keys), Aligned(b, keys), sqrt)]
  }

  /** The couplings of group i with the groups after it and before n. */
  function Row(groups: seq<Priorities>, i: nat, n: nat, sorted: set<string> -> seq<string>,
               sqrt: real -> real): seq<real>
    requires TakesRoots(sqrt) && i < n <= |groups|
    decreases n
  {
    if n == i + 1 then []
    else Row(groups, i, n - 1, sorted, sqrt) + Coupling(groups[i], groups[n - 1], sorted, sqrt)
  }

  /** The couplings of all pairs whose first group is among the first n. */
  function Couplings(groups: seq<Priorities>, n: nat, sorted: set<string> -> seq<string>, sqrt: real -> real): seq<real>
    requires TakesRoots(sqrt) && n <= |groups|
  {
    if n == 0 then [] else Couplings(groups, n - 1, sorted, sqrt) + Row(groups, n - 1, |groups|, sorted, sqrt)
  }

  /** The mean over the couplings of all unordered pairs of groups. */
  function MeanCoupling(policies: seq<Option<Priorities>>, sorted: set<string> -> seq<string>, sqrt: real -> real): real
    requires TakesRoots(sqrt)
  {
    var groups := Kept(policies);
    var c := Couplings(groups, |groups|, sorted, sqrt);
    if |groups| < 2 || c == [] then 0.0 else Sum(c) / |c| as real
  }

  lemma {:induction false} RowInRange(groups: seq<Priorities>, i: nat, n: nat, sorted: set<string> -> seq<string>,
                                      sqrt: real -> real)
    requires TakesRoots(sqrt) && i < n <= |groups|
    ensures Within(Row(groups, i, n, sorted, sqrt), -1.0, 1.0)
    decreases n
  {
    hide TakesRoots, PearsonOf;
    if n > i + 1 {
      RowInRange(groups, i, n - 1, sorted, sqrt);
      var a, b := groups[i], groups[n - 1];
      var keys := sorted(a.Keys + b.Keys);
      CorrelationInRange(Aligned(a, keys), Aligned(b, keys), sqrt);
    }
  }

  lemma {:induction false} CouplingsInRange(groups: seq<Priorities>, n: nat, sorted: set<string> -> seq<string>,
                                            sqrt: real -> real)
    requires TakesRoots(sqrt) && n <= |groups|
    ensures Within(Couplings(groups, n, sorted, sqrt), -1.0, 1.0)
  {
    hide TakesRoots, Row;
    if n > 0 {
      CouplingsInRange(groups, n - 1, sorted, sqrt);
      RowInRange(groups, n - 1, |groups|, sorted, sqrt);
    }
  }

  /** The mean coupling lies in [-1, 1], whatever the groups and however the keys are ordered. */
  lemma CouplingInRange(policies: seq<Option<Priorities>>, sorted: set<string> -> seq<string>, sqrt: real -> real)
    requires TakesRoots(sqrt)
    ensures -1.0 <= MeanCoupling(policies, sorted, sqrt) <= 1.0
  {
    hide TakesRoots, Couplings, Sum;
    var groups := Kept(policies);
    CouplingsInRange(groups, |groups|, sorted, sqrt);
    var c := Couplings(groups, |groups|, sorted, sqrt);
    if c != [] {
      MeanWithin(c, -1.0, 1.0);
    }
  }

  lemma RowStart(above: seq<real>, groups: seq<Priorities>, i: nat, sorted: set<string> -> seq<string>,
                 sqrt: real -> real)
    requires TakesRoots(sqrt) && i < |groups|
    ensures above + Row(groups, i, i + 1, sorted, sqrt) == above
  {
  }

  lemma RowStep(above: seq<real>, groups: seq<Priorities>, i: nat, j: nat, sorted: set<string> -> seq<string>,
                sqrt: real -> real)
    requires TakesRoots(sqrt) && i < j < |groups|
    ensures above + Row(groups, i, j + 1, sorted, sqrt)
         == above + Row(groups, i, j, sorted, sqrt) + Coupling(groups[i], groups[j], sorted, sqrt)
  {
  }

  /** The weights of the policy along the keys, with zero for a missing key. */
  predicate Fills(xs: seq<real>, pri: Priorities, keys: seq<string>) {
    |xs| == |keys| && forall k :: 0 <= k < |keys| ==> xs[k] == if keys[k] in pri then pri[keys[k]] else 0.0
  }

  lemma AlignedFills(xs: seq<real>, pri: Priorities, keys: seq<string>)
    requires Fills(xs, pri, keys)
    ensures Aligned(pri, keys) == xs
  {
  }

  lemma {:induction false} RowHas(groups: seq<Priorities>, i: nat, j: nat, n: nat, sorted: set<string> -> seq<string>,
                                  sqrt: real -> real)
    requires TakesRoots(sqrt) && i < j < n <= |groups|
    ensures forall r :: r in Coupling(groups[i], groups[j], sorted, sqrt) ==> r in Row(groups, i, n, sorted, sqrt)
    decreases n
  {
    if j < n - 1 { RowHas(groups, i, j, n - 1, sorted, sqrt); }
    hide TakesRoots, Coupling;
  }

  lemma {:induction false} CouplingsHave(groups: seq<Priorities>, i: nat, n: nat, sorted: set<string> -> seq<string>,
                                         sqrt: real -> real)
    requires TakesRoots(sqrt) && i < n <= |groups|
    ensures forall r :: r in Row(groups, i, |groups|, sorted, sqrt) ==> r in Couplings(groups, n, sorted, sqrt)
  {
    hide TakesRoots, Row;
    if i < n - 1 { CouplingsHave(groups, i, n - 1, sorted, sqrt); }
  }

  /** Every pair of groups with two keys or more between them enters the mean with the correlation of
      their weights along all those keys. */
  lemma PairIsCounted(groups: seq<Priorities>, i: nat, j: nat, xs: seq<real>, ys: seq<real>,
                      sorted: set<string> -> seq<string>, sqrt: real -> real)
    requires TakesRoots(sqrt) && i < j < |groups|
    requires var keys := sorted(groups[i].Keys + groups[j].Keys);
      |keys| >= 2 && Fills(xs, groups[i], keys) && Fills(ys, groups[j], keys)
    ensures PearsonOf(xs, ys, sqrt) in Couplings(groups, |groups|, sorted, sqrt)
  {
    var keys := sorted(groups[i].Keys + groups[j].Keys);
    AlignedFills(xs, groups[i], keys);
    AlignedFills(ys, groups[j], keys);
    assert Coupling(groups[i], groups[j], sorted, sqrt)[0] == PearsonOf(xs, ys, sqrt);
    hide TakesRoots, Aligned, Fills, PearsonOf, Couplings, Coupling;
    RowHas(groups, i, j, |groups|, sorted, sqrt);
    CouplingsHave(groups, i, |groups|, sorted, sqrt);
  }

  predicate WellKeyed(groups: seq<Priorities>, sorted: set<string> -> seq<string>) {
    forall i, j :: 0 <= i < j < |groups| ==> |sorted(groups[i].Keys + groups[j].Keys)| >= 2
  }

  lemma {:induction false} RowCount(groups: seq<Priorities>, i: nat, n: nat, sorted: set<string> -> seq<string>,
                                    sqrt: real -> real)
    requires TakesRoots(sqrt) && i < n <= |groups| && WellKeyed(groups, sorted)
    ensures |Row(groups, i, n, sorted, sqrt)| == n - i - 1
    decreases n
  {
    if n > i + 1 { RowCount(groups, i, n - 1, sorted, sqrt); }
    hide TakesRoots, PearsonOf, Aligned;
  }

  /** And nothing else does: g groups that are all coupled enter it g (g - 1) / 2 times. */
  lemma {:induction false} PairsAreCountedOnce(groups: seq<Priorities>, n: nat, sorted: set<string> -> seq<string>,
                                               sqrt: real -> real)
    requires TakesRoots(sqrt) && n <= |groups| && WellKeyed(groups, sorted)
    ensures 2 * |Couplings(groups, n, sorted, sqrt)| == n * (2 * |groups| - n - 1)
  {
    hide TakesRoots, Row, WellKeyed;
    if n > 0 {
      PairsAreCountedOnce(groups, n - 1, sorted, sqrt);
      RowCount(groups, n - 1, |groups|, sorted, sqrt);
      MorePairs(n, |groups|);
    }
  }

  lemma MorePairs(n: int, g: int)
    ensures (n - 1) * (2 * g - (n - 1) - 1) + 2 * (g - n) == n * (2 * g - n - 1)
  {
  }

  /** Groups that all have a policy are all kept, and one without is not. */
  lemma {:induction false} KeptAre(groups: seq<Priorities>, policies: seq<Option<Priorities>>)
    requires |policies| == |groups| && forall i :: 0 <= i < |groups| ==> policies[i] == Some(groups[i])
    ensures Kept(policies) == groups && Kept(policies + [None]) == groups
  {
    assert (policies + [None])[..|policies|] == policies;
    if groups != [] {
      KeptAre(groups[..|groups| - 1], policies[..|policies| - 1]);
      assert groups == groups[..|groups| - 1] + [groups[|groups| - 1]];
    }
  }

  method GroupCouplingMean(policies: seq<Option<Priorities>>, sorted: set<string> -> seq<string>, sqrt: real -> real)
    returns (mean: real)
    requires TakesRoots(sqrt)
    ensures mean == MeanCoupling(policies, sorted, sqrt)
  {
    hide TakesRoots, Sum, PearsonOf, Row, Aligned;
    var groups := Kept(policies);
    if |groups| < 2 {
      return 0.0;
    }
    var total, count := 0.0, 0;
    SumEmpty();
    for i := 0 to |groups|
      invariant total == Sum(Couplings(groups, i, sorted, sqrt)) && count == |Couplings(groups, i, sorted, sqrt)|
    {
      ghost var above := Couplings(groups, i, sorted, sqrt);
      RowStart(above, groups, i, sorted, sqrt);
      for j := i + 1 to |groups|
        invariant total == Sum(above + Row(groups, i, j, sorted, sqrt))
        invariant count == |above + Row(groups, i, j, sorted, sqrt)|
      {
        ghost var done := above + Row(groups, i, j, sorted, sqrt);
        RowStep(above, groups, i, j, sorted, sqrt);
        var keys := sorted(groups[i].Keys + groups[j].Keys);
        if |keys| < 2 {
          assert done + [] == done;
          continue;
        }
        var r := Correlate(Aligned(groups[i], keys), Aligned(groups[j], keys), sqrt);
        SumSnoc(done, r);
        total := total + r;
        count := count + 1;
      }
    }
    mean := if count > 0 then total / count as real else 0.0;
  }

  // ---- the order of the keys does not matter ---------------------------------------------------------

  lemma {:induction false} SumAligned(a: Priorities, keys: seq<string>, f: string -> real)
    requires forall k :: f(k) == Weight(a, k)
    ensures Sum(Aligned(a, keys)) == SumOver(keys, f)
  {
    if keys != [] {
      SumAligned(a, keys[..|keys| - 1], f);
      assert Aligned(a, keys)[..|keys| - 1] == Aligned(a, keys[..|keys| - 1]);
    }
  }

  lemma ShiftedFront(a: Priorities, keys: seq<string>, m: real)
    requires keys != []
    ensures var s, front := Shifted(Aligned(a, keys), m), keys[..|keys| - 1];
            s[..|front|] == Shifted(Aligned(a, front), m) && s[|front|] == Weight(a, keys[|front|]) - m
  {
  }

  lemma {:induction false} DotShifted(a: Priorities, b: Priorities, keys: seq<string>, ma: real, mb: real,
                                      f: string -> real)
    requires forall k :: f(k) == Product(Weight(a, k) - ma, Weight(b, k) - mb)
    ensures Dot(Shifted(Aligned(a, keys), ma), Shifted(Aligned(b, keys), mb)) == SumOver(keys, f)
  {
    hide Product, Shifted, Aligned, Weight;
    if keys != [] {
      DotShifted(a, b, keys[..|keys| - 1], ma, mb, f);
      ShiftedFront(a, keys, ma);
      ShiftedFront(b, keys, mb);
    }
  }

  lemma SumAlignedOrder(a: Priorities, keys: seq<string>, keys': seq<string>)
    requires multiset(keys) == multiset(keys')
    ensures Sum(Aligned(a, keys)) == Sum(Aligned(a, keys')) && |keys| == |keys'|
  {
    var f := k => Weight(a, k);
    SumAligned(a, keys, f);
    SumAligned(a, keys', f);
    SumOverOrder(keys, keys', f);
  }

  lemma DotShiftedOrder(a: Priorities, b: Priorities, keys: seq<string>, keys': seq<string>, ma: real, mb: real)
    requires multiset(keys) == multiset(keys') && |keys| == |keys'|
    ensures Dot(Shifted(Aligned(a, keys), ma), Shifted(Aligned(b, keys), mb))
         == Dot(Shifted(Aligned(a, keys'), ma), Shifted(Aligned(b, keys'), mb))
  {
    hide Product;
    var f := k => Product(Weight(a, k) - ma, Weight(b, k) - mb);
    DotShifted(a, b, keys, ma, mb, f);
    DotShifted(a, b, keys', ma, mb, f);
    SumOverOrder(keys, keys', f);
  }

  lemma DeviationsOrder(a: Priorities, b: Priorities, keys: seq<string>, keys': seq<string>)
    requires multiset(keys) == multiset(keys') && keys != [] && |keys| == |keys'|
    ensures Dot(Deviations(Aligned(a, keys)), Deviations(Aligned(b, keys)))
         == Dot(Deviations(Aligned(a, keys')), Deviations(Aligned(b, keys')))
  {
    SumAlignedOrder(a, keys, keys');
    SumAlignedOrder(b, keys, keys');
    hide Sum, Shifted, Aligned, Dot;
    DotShiftedOrder(a, b, keys, keys', Sum(Aligned(a, keys)) / |keys| as real, Sum(Aligned(b, keys)) / |keys| as real);
  }

  lemma PearsonOrder(a: Priorities, b: Priorities, keys: seq<string>, keys': seq<string>, sqrt: real -> real)
    requires TakesRoots(sqrt) && multiset(keys) == multiset(keys')
    ensures |keys| == |keys'|
    ensures PearsonOf(Aligned(a, keys), Aligned(b, keys), sqrt) == PearsonOf(Aligned(a, keys'), Aligned(b, keys'), sqrt)
  {
    SumAlignedOrder(a, keys, keys');
    hide Aligned, Deviations, Dot, TakesRoots, Sum;
    var n := |keys|;
    assert Aligned(a, keys)[..n] == Aligned(a, keys) && Aligned(a, keys')[..n] == Aligned(a, keys');
    assert Aligned(b, keys)[..n] == Aligned(b, keys) && Aligned(b, keys')[..n] == Aligned(b, keys');
    if n >= 2 {
      DeviationsOrder(a, b, keys, keys');
      DeviationsOrder(a, a, keys, keys');
      DeviationsOrder(b, b, keys, keys');
    }
  }

  /** Both list every key of a set once, in whatever order. */
  ghost predicate SameKeys(sorted: set<string> -> seq<string>, shuffled: set<string> -> seq<string>) {
    forall keys :: multiset(sorted(keys)) == multiset(shuffled(keys))
  }

  lemma {:induction false} RowOrder(groups: seq<Priorities>, i: nat, n: nat, sorted: set<string> -> seq<string>,
                                    shuffled: set<string> -> seq<string>, sqrt: real -> real)
    requires TakesRoots(sqrt) && SameKeys(sorted, shuffled) && i < n <= |groups|
    ensures Row(groups, i, n, sorted, sqrt) == Row(groups, i, n, shuffled, sqrt)
    decreases n
  {
    hide TakesRoots, PearsonOf;
    if n > i + 1 {
      RowOrder(groups, i, n - 1, sorted, shuffled, sqrt);
      var a, b := groups[i], groups[n - 1];
      PearsonOrder(a, b, sorted(a.Keys + b.Keys), shuffled(a.Keys + b.Keys), sqrt);
    }
  }

  lemma {:induction false} CouplingsOrder(groups: seq<Priorities>, n: nat, sorted: set<string> -> seq<string>,
                                          shuffled: set<string> -> seq<string>, sqrt: real -> real)
    requires TakesRoots(sqrt) && SameKeys(sorted, shuffled) && n <= |groups|
    ensures Couplings(groups, n, sorted, sqrt) == Couplings(groups, n, shuffled, sqrt)
  {
    hide TakesRoots, Row, SameKeys;
    if n > 0 {
      CouplingsOrder(groups, n - 1, sorted, shuffled, sqrt);
      RowOrder(groups, n - 1, |groups|, sorted, shuffled, sqrt);
    }
  }

  /** The keys are sorted for reproducibility only: no order changes the exact mean. */
  lemma KeyOrderDoesNotMatter(policies: seq<Option<Priorities>>, sorted: set<string> -> seq<string>,
                              shuffled: set<string> -> seq<string>, sqrt: real -> real)
    requires TakesRoots(sqrt) && SameKeys(sorted, shuffled)
    ensures MeanCoupling(policies, sorted, sqrt) == MeanCoupling(policies, shuffled, sqrt)
  {
    hide TakesRoots, Couplings, SameKeys;
    CouplingsOrder(Kept(policies), |Kept(policies)|, sorted, shuffled, sqrt);
  }
}
