/** Sums of exact reals, shared by the benchmark kernels. */
module Sums {

  function Abs(x: real): real {
    if x < 0.0 then -x else x
  }

  lemma SignOfProduct(x: real, y: real)
    requires x >= 0.0 && y >= 0.0
    ensures x * y >= 0.0 && (x > 0.0 && y > 0.0 ==> x * y > 0.0)
  {
  }

  lemma OrderScales(a: real, b: real, s: real)
    requires s > 0.0
    ensures a <= b <==> Scaled(a, s) <= Scaled(b, s)
  {
    if a <= b { assert (b - a) * s >= 0.0; } else { assert (a - b) * s > 0.0; }
  }

  function Scaled(a: real, s: real): real {
    a * s
  }

  lemma QuotientBetween(x: real, s: real, lo: real)
    requires s > 0.0
    ensures lo <= x / s < lo + 1.0 <==> lo * s <= x < (lo + 1.0) * s
  {
    var q := x / s;
    assert Scaled(q, s) == x;
    OrderScales(lo, q, s);
    OrderScales(lo + 1.0, q, s);
    assert Scaled(lo, s) == lo * s && Scaled(lo + 1.0, s) == (lo + 1.0) * s;
    hide Scaled;
  }

  lemma FloorIff(y: real, k: int)
    ensures y.Floor == k <==> k as real <= y < k as real + 1.0
  {
  }

  lemma QuotientFloorIff(x: real, s: real, k: int)
    requires s > 0.0
    ensures (x / s).Floor == k <==> k as real * s <= x < (k + 1) as real * s
  {
    QuotientBetween(x, s, k as real);
    FloorIff(x / s, k);
    assert (k + 1) as real == k as real + 1.0;
  }

  lemma ZeroProductIff(x: real, y: real)
    ensures x * y == 0.0 <==> x == 0.0 || y == 0.0
  {
  }

  function Sum(s: seq<real>): real {
    if s == [] then 0.0 else Sum(s[..|s| - 1]) + s[|s| - 1]
  }

  /** Python's sum. */
  method Total(s: seq<real>) returns (total: real)
    ensures total == Sum(s)
  {
    total := 0.0;
    for i := 0 to |s|
      invariant total == Sum(s[..i])
    {
      assert s[..i + 1][..i] == s[..i];
      total := total + s[i];
    }
    assert s[..|s|] == s;
  }

  lemma SumSnoc(s: seq<real>, v: real)
    ensures Sum(s + [v]) == Sum(s) + v
  {
    assert (s + [v])[..|s|] == s;
  }

  predicate Within(s: seq<real>, lo: real, hi: real) {
    forall i :: 0 <= i < |s| ==> lo <= s[i] <= hi
  }

  lemma OneMoreTerm(k: nat, x: real)
    ensures (k + 1) as real * x == k as real * x + x
  {
  }

  lemma {:induction false} SumWithin(s: seq<real>, lo: real, hi: real)
    requires Within(s, lo, hi)
    ensures |s| as real * lo <= Sum(s) <= |s| as real * hi
  {
    if s != [] {
      SumWithin(s[..|s| - 1], lo, hi);
      OneMoreTerm(|s| - 1, lo);
      OneMoreTerm(|s| - 1, hi);
    }
  }

  /** A mean lies between the bounds of its terms. */
  lemma MeanWithin(s: seq<real>, lo: real, hi: real)
    requires s != [] && Within(s, lo, hi)
    ensures lo <= Sum(s) / |s| as real <= hi
  {
    SumWithin(s, lo, hi);
    DivideBounds(Sum(s), |s| as real, lo, hi);
  }

  lemma DivideBounds(t: real, n: real, lo: real, hi: real)
    requires n > 0.0 && n * lo <= t <= n * hi
    ensures lo <= t / n <= hi
  {
    var q := t / n;
    assert q * n == t;
    assert q < lo ==> (lo - q) * n > 0.0;
    assert q > hi ==> (q - hi) * n > 0.0;
  }

  lemma SumEmpty()
    ensures Sum([]) == 0.0
  {
  }

  // ---- sums over permutations ------------------------------------------------------------

  /** Where the last value of s sits in a permutation of s, and what is left around it. */
  lemma LastIn<T>(s: seq<T>, t: seq<T>) returns (a: seq<T>, b: seq<T>)
    requires s != [] && multiset(s) == multiset(t)
    ensures t == a + [s[|s| - 1]] + b && multiset(a + b) == multiset(s[..|s| - 1]) && |t| == |s|
  {
    var v := s[|s| - 1];
    assert s == s[..|s| - 1] + [v];
    assert v in multiset(t);
    var i :| 0 <= i < |t| && t[i] == v;
    a, b := t[..i], t[i + 1..];
    assert t == a + [v] + b;
    assert multiset(t) == multiset(a + b) + multiset{v};
    assert multiset(s) == multiset(s[..|s| - 1]) + multiset{v};
    assert multiset(a + b) == multiset(t) - multiset{v};
    assert |multiset(t)| == |t| && |multiset(s)| == |s|;
  }

  function SumOver<T>(s: seq<T>, f: T -> real): real {
    if s == [] then 0.0 else SumOver(s[..|s| - 1], f) + f(s[|s| - 1])
  }

  lemma {:induction false} SumOverSplit<T>(a: seq<T>, v: T, b: seq<T>, f: T -> real)
    ensures SumOver(a + [v] + b, f) == SumOver(a + b, f) + f(v)
  {
    if b == [] {
      assert a + [v] + b == a + [v] && (a + [v])[..|a|] == a && a + b == a;
    } else {
      var front := b[..|b| - 1];
      SumOverSplit(a, v, front, f);
      assert (a + [v] + b)[..|a + [v] + b| - 1] == a + [v] + front;
      assert (a + b)[..|a + b| - 1] == a + front;
    }
  }

  lemma {:induction false} SumOverOrder<T>(s: seq<T>, t: seq<T>, f: T -> real)
    requires multiset(s) == multiset(t)
    ensures SumOver(s, f) == SumOver(t, f) && |s| == |t|
    decreases |s|
  {
    if s == [] {
      assert |multiset(t)| == |t|;
    } else {
      var a, b := LastIn(s, t);
      SumOverOrder(s[..|s| - 1], a + b, f);
      SumOverSplit(a, s[|s| - 1], b, f);
    }
  }
}
