/** benchmark/framework/scoring_engine.py: mean win rates of agents over the dimensions they share. */
module WinRates {
  import opened Wrappers
  import opened Rounding

  /** An agent's scores by dimension; None for a score that is not a finite number. */
  type Scores = map<string, Option<real>>

  function ScoreOn(a: Scores, d: string): Option<real> {
    if d in a then a[d] else None
  }

  predicate Shares(a: Scores, b: Scores, d: string) {
    ScoreOn(a, d).Some? && ScoreOn(b, d).Some?
  }

  predicate Beats(a: Scores, b: Scores, d: string) {
    Shares(a, b, d) && ScoreOn(a, d).value > ScoreOn(b, d).value
  }

  predicate Ties(a: Scores, b: Scores, d: string) {
    Shares(a, b, d) && ScoreOn(a, d) == ScoreOn(b, d)
  }

  function Joint(a: Scores, b: Scores): set<string> {
    set d | d in a.Keys + b.Keys && Shares(a, b, d)
  }

  function Won(a: Scores, b: Scores): set<string> {
    set d | d in a.Keys + b.Keys && Beats(a, b, d)
  }

  function Tied(a: Scores, b: Scores): set<string> {
    set d | d in a.Keys + b.Keys && Ties(a, b, d)
  }

  function Quotient(wins: nat, joint: nat): real {
    if joint == 0 then 0.0 else wins as real / joint as real
  }

  /** The share of the common dimensions on which a beats b. */
  function Rate(a: Scores, b: Scores): real {
    Quotient(|Won(a, b)|, |Joint(a, b)|)
  }

  /** The two agents share a dimension and tie on none. */
  predicate Decided(a: Scores, b: Scores) {
    (exists d :: d in a.Keys && Shares(a, b, d)) && forall d :: d in a.Keys ==> !Ties(a, b, d)
  }

  // ---- one pair ------------------------------------------------------------------------------

  lemma JointIsSplit(a: Scores, b: Scores)
    ensures Joint(a, b) == Joint(b, a)
    ensures |Won(a, b)| + |Won(b, a)| + |Tied(a, b)| == |Joint(a, b)|
  {
    assert Joint(a, b) == Won(a, b) + Won(b, a) + Tied(a, b);
    assert Won(a, b) * Won(b, a) == {} && (Won(a, b) + Won(b, a)) * Tied(a, b) == {};
  }

  lemma QuotientSum(w: nat, l: nat, t: nat, joint: nat)
    requires w + l + t == joint
    ensures 0.0 <= Quotient(w, joint) <= 1.0
    ensures Quotient(w, joint) + Quotient(l, joint) <= 1.0
    ensures Quotient(w, joint) + Quotient(l, joint) == 1.0 <==> joint > 0 && t == 0
  {
    if joint > 0 {
      var n := joint as real;
      assert w as real / n + l as real / n == (w + l) as real / n;
      DivideAtMost(w as real, n);
      DivideAtMost((w + l) as real, n);
    }
  }

  lemma DivideAtMost(x: real, n: real)
    requires n > 0.0 && 0.0 <= x <= n
    ensures 0.0 <= x / n <= 1.0 && (x / n == 1.0 <==> x == n)
  {
    assert x / n * n == x;
  }

  /** The rates of two agents against each other sum to at most 1, and to 1 exactly when they
      share a dimension and tie on none. */
  lemma PairRates(a: Scores, b: Scores)
    ensures 0.0 <= Rate(a, b) <= 1.0
    ensures Rate(a, b) + Rate(b, a) <= 1.0
    ensures Rate(a, b) + Rate(b, a) == 1.0 <==> Decided(a, b)
  {
    JointIsSplit(a, b);
    QuotientSum(|Won(a, b)|, |Won(b, a)|, |Tied(a, b)|, |Joint(a, b)|);
    DecidedByCounts(a, b);
  }

  lemma DecidedByCounts(a: Scores, b: Scores)
    ensures Decided(a, b) <==> |Joint(a, b)| > 0 && |Tied(a, b)| == 0
  {
    if Decided(a, b) {
      var d :| d in a.Keys && Shares(a, b, d);
      assert d in Joint(a, b);
      assert Tied(a, b) == {};
    } else if forall d :: d in a.Keys ==> !Shares(a, b, d) {
      assert Joint(a, b) == {};
    } else {
      var d :| d in a.Keys && Ties(a, b, d);
      assert d in Tied(a, b);
    }
  }

  /** Both have a finite score on d. */
  predicate BothScored(a: Scores, b: Scores, d: string) {
    d in a && a[d].Some? && d in b && b[d].Some?
  }

  /** An agent wins everything exactly if it is ahead wherever both have a score, and that is somewhere;
      it wins nothing exactly if it is ahead nowhere. */
  lemma RateIsExtremeIff(a: Scores, b: Scores)
    ensures Rate(a, b) == 1.0 <==>
      && (exists d :: d in a && BothScored(a, b, d))
      && (forall d :: d in a && BothScored(a, b, d) ==> a[d].value > b[d].value)
    ensures Rate(a, b) == 0.0 <==> forall d :: d in a && BothScored(a, b, d) ==> a[d].value <= b[d].value
  {
    var won, joint := Won(a, b), Joint(a, b);
    forall d ensures d in joint <==> d in a && BothScored(a, b, d) { }
    forall d ensures d in won <==> d in a && BothScored(a, b, d) && a[d].value > b[d].value { }
    hide Won, Joint;
    QuotientIsExtremeIff(won, joint);
    if joint == {} {
      assert won == {};
    } else {
      assert exists d :: d in joint;
    }
  }

  lemma QuotientIsExtremeIff(won: set<string>, joint: set<string>)
    requires won <= joint
    ensures Quotient(|won|, |joint|) == 1.0 <==> joint != {} && won == joint
    ensures Quotient(|won|, |joint|) == 0.0 <==> won == {}
  {
    var rest := joint - won;
    assert joint == won + rest && won * rest == {};
    assert |joint| == |won| + |rest|;
    if joint != {} {
      DivideAtMost(|won| as real, |joint| as real);
      assert |won| as real / |joint| as real * |joint| as real == |won| as real;
    }
  }

  /** A better score on one dimension never lowers an agent's rate, nor raises its opponents'. */
  lemma BetterScoreHelps(a: Scores, b: Scores, d: string, v: real)
    requires d in a && a[d].Some? && v >= a[d].value
    ensures Rate(a[d := Some(v)], b) >= Rate(a, b) && Rate(b, a[d := Some(v)]) <= Rate(b, a)
  {
    var a' := a[d := Some(v)];
    assert Joint(a', b) == Joint(a, b) && Joint(b, a') == Joint(b, a);
    assert Won(a, b) <= Won(a', b) && Won(b, a') <= Won(b, a);
    SubsetCount(Won(a, b), Won(a', b));
    SubsetCount(Won(b, a'), Won(b, a));
    QuotientGrows(|Won(a, b)|, |Won(a', b)|, |Joint(a, b)|);
    QuotientGrows(|Won(b, a')|, |Won(b, a)|, |Joint(b, a)|);
    hide Won, Joint, Quotient;
  }

  lemma SubsetCount(a: set<string>, b: set<string>)
    requires a <= b
    ensures |a| <= |b|
  {
    var rest := b - a;
    assert b == a + rest && a * rest == {};
  }

  lemma QuotientGrows(v: nat, w: nat, joint: nat)
    requires v <= w
    ensures Quotient(v, joint) <= Quotient(w, joint)
  {
    if joint > 0 {
      var n := joint as real;
      assert w as real / n - v as real / n == (w - v) as real / n;
      assert (w - v) as real / n >= 0.0;
    }
  }

  // ---- all agents --------------------------------------------------------------------------------

  /** The rates of agent i against the other agents among the first n. */
  function RowSum(s: seq<Scores>, i: nat, n: nat): real
    requires i < |s| && n <= |s|
  {
    if n == 0 then 0.0
    else if n - 1 == i then RowSum(s, i, n - 1)
    else RowSum(s, i, n - 1) + Rate(s[i], s[n - 1])
  }

  function MeanRate(s: seq<Scores>, i: nat): real
    requires i < |s|
  {
    if |s| == 1 then 0.0 else RowSum(s, i, |s|) / (|s| - 1) as real
  }

  /** The rates of the first k agents against the other agents among the first n. */
  function GrandSum(s: seq<Scores>, k: nat, n: nat): real
    requires k <= |s| && n <= |s|
  {
    if k == 0 then 0.0 else GrandSum(s, k - 1, n) + RowSum(s, k - 1, n)
  }

  /** The rates of the first k agents against agent j. */
  function ColumnSum(s: seq<Scores>, j: nat, k: nat): real
    requires j < |s| && k <= |s|
  {
    if k == 0 then 0.0 else ColumnSum(s, j, k - 1) + Rate(s[k - 1], s[j])
  }

  lemma {:induction false} GrandSumGrows(s: seq<Scores>, k: nat, n: nat)
    requires k <= n < |s|
    ensures GrandSum(s, k, n + 1) == GrandSum(s, k, n) + ColumnSum(s, n, k)
  {
    hide Rate;
    if k > 0 { GrandSumGrows(s, k - 1, n); }
  }

  ghost predicate AllDecided(s: seq<Scores>, j: nat, k: nat)
    requires j < |s| && k <= |s|
  {
    forall i :: 0 <= i < k ==> Decided(s[i], s[j])
  }

  /** The pairs that agent j makes with the first k agents. */
  lemma {:induction false} PairsWith(s: seq<Scores>, j: nat, k: nat)
    requires k <= j < |s|
    ensures ColumnSum(s, j, k) + RowSum(s, j, k) <= k as real
    ensures ColumnSum(s, j, k) + RowSum(s, j, k) == k as real <==> AllDecided(s, j, k)
  {
    hide Rate, Decided;
    if k > 0 {
      PairsWith(s, j, k - 1);
      PairRates(s[k - 1], s[j]);
    }
  }

  ghost predicate EveryPairDecided(s: seq<Scores>, n: nat)
    requires n <= |s|
  {
    forall j :: 0 <= j < n ==> AllDecided(s, j, j)
  }

  /** Twice the sum over the first n agents is at most n (n - 1). */
  ghost predicate HalfOfPairs(total: real, n: int, tight: bool) {
    2.0 * total <= (n * (n - 1)) as real && (2.0 * total == (n * (n - 1)) as real <==> tight)
  }

  lemma HalfOfPairsStep(total: real, n: int, tight: bool, more: real, tightMore: bool)
    requires HalfOfPairs(total, n, tight) && more <= n as real && (more == n as real <==> tightMore)
    ensures HalfOfPairs(total + more, n + 1, tight && tightMore)
  {
    assert ((n + 1) * n) as real == (n * (n - 1)) as real + 2.0 * n as real;
  }

  lemma NoPairs(s: seq<Scores>)
    ensures HalfOfPairs(0.0, 0, EveryPairDecided(s, 0))
  {
  }

  lemma OneMoreDecided(s: seq<Scores>, n: nat)
    requires 0 < n <= |s|
    ensures EveryPairDecided(s, n) <==> EveryPairDecided(s, n - 1) && AllDecided(s, n - 1, n - 1)
  {
    hide AllDecided;
  }

  lemma {:induction false} GrandSumIsHalf(s: seq<Scores>, n: nat)
    requires n <= |s|
    ensures HalfOfPairs(GrandSum(s, n, n), n, EveryPairDecided(s, n))
  {
    hide HalfOfPairs, Rate, AllDecided, EveryPairDecided;
    if n == 0 {
      NoPairs(s);
    } else {
      GrandSumIsHalf(s, n - 1);
      GrandSumGrows(s, n - 1, n - 1);
      PairsWith(s, n - 1, n - 1);
      var more := ColumnSum(s, n - 1, n - 1) + RowSum(s, n - 1, n - 1);
      HalfOfPairsStep(GrandSum(s, n - 1, n - 1), n - 1, EveryPairDecided(s, n - 1), more, AllDecided(s, n - 1, n - 1));
      OneMoreDecided(s, n);
    }
  }

  lemma {:induction false} RowSumInRange(s: seq<Scores>, i: nat, n: nat)
    requires i < |s| && n <= |s|
    ensures 0.0 <= RowSum(s, i, n) <= (if i < n then n - 1 else n) as real
  {
    hide Rate;
    if n > 0 {
      RowSumInRange(s, i, n - 1);
      PairRates(s[i], s[n - 1]);
    }
  }

  /** Every mean win rate lies in [0, 1]. */
  lemma MeanRateInRange(s: seq<Scores>, i: nat)
    requires i < |s|
    ensures 0.0 <= MeanRate(s, i) <= 1.0 && (|s| == 1 ==> MeanRate(s, i) == 0.0)
  {
    RowSumInRange(s, i, |s|);
    if |s| > 1 {
      hide RowSum;
      DivideAtMost(RowSum(s, i, |s|), (|s| - 1) as real);
    }
  }

  function MeanSum(s: seq<Scores>, k: nat): real
    requires k <= |s|
  {
    if k == 0 then 0.0 else MeanSum(s, k - 1) + MeanRate(s, k - 1)
  }

  lemma {:induction false} MeanSumIsGrandSum(s: seq<Scores>, k: nat)
    requires k <= |s| && |s| >= 2
    ensures MeanSum(s, k) == GrandSum(s, k, |s|) / (|s| - 1) as real
  {
    hide RowSum;
    if k > 0 { MeanSumIsGrandSum(s, k - 1); }
  }

  lemma HalfDivided(total: real, n: int, tight: bool)
    requires n >= 2 && HalfOfPairs(total, n, tight)
    ensures total / (n - 1) as real <= n as real / 2.0
    ensures total / (n - 1) as real == n as real / 2.0 <==> tight
  {
    var m := (n - 1) as real;
    var q := total / m;
    assert q * m == total;
    assert (n * (n - 1)) as real == n as real * m;
    var half := n as real / 2.0;
    assert 2.0 * (half * m) == (n * (n - 1)) as real;
    assert q > half ==> (q - half) * m > 0.0;
    assert q < half ==> (half - q) * m > 0.0;
  }

  /** The mean win rates of two or more agents sum to at most half their number, and to exactly
      half when every pair shares a dimension and ties on none. */
  lemma MeanRatesSumToHalf(s: seq<Scores>)
    requires |s| >= 2
    ensures MeanSum(s, |s|) <= |s| as real / 2.0
    ensures MeanSum(s, |s|) == |s| as real / 2.0 <==> EveryPairDecided(s, |s|)
  {
    MeanSumIsGrandSum(s, |s|);
    GrandSumIsHalf(s, |s|);
    hide HalfOfPairs, EveryPairDecided, GrandSum, MeanSum;
    HalfDivided(GrandSum(s, |s|, |s|), |s|, EveryPairDecided(s, |s|));
  }

  // ---- the loops -----------------------------------------------------------------------------------

  /** What is left of the dimensions, and what the loop has seen. */
  ghost predicate Walk(all: set<string>, rest: set<string>, seen: set<string>) {
    rest + seen == all && rest !! seen
  }

  ghost function SeenOf(s: set<string>, seen: set<string>): nat {
    |s * seen|
  }

  lemma StartWalk(all: set<string>)
    ensures Walk(all, all, {})
  {
  }

  lemma WalkOn(all: set<string>, rest: set<string>, seen: set<string>, d: string)
    requires Walk(all, rest, seen) && d in rest
    ensures Walk(all, rest - {d}, seen + {d}) && |rest - {d}| < |rest|
    ensures d in all && d !in seen
  {
  }

  lemma CountOne(s: set<string>, seen: set<string>, d: string)
    requires d !in seen
    ensures SeenOf(s, seen + {d}) == SeenOf(s, seen) + if d in s then 1 else 0
  {
    if d in s {
      assert s * (seen + {d}) == s * seen + {d};
    } else {
      assert s * (seen + {d}) == s * seen;
    }
  }

  lemma Members(a: Scores, b: Scores, d: string)
    requires d in a.Keys + b.Keys
    ensures (d in Joint(a, b) <==> Shares(a, b, d)) && (d in Won(a, b) <==> Beats(a, b, d))
  {
  }

  lemma AllSeen(a: Scores, b: Scores, seen: set<string>)
    requires Walk(a.Keys + b.Keys, {}, seen)
    ensures SeenOf(Joint(a, b), seen) == |Joint(a, b)| && SeenOf(Won(a, b), seen) == |Won(a, b)|
  {
    assert Joint(a, b) * seen == Joint(a, b) && Won(a, b) * seen == Won(a, b);
  }

  lemma NoneSeen(s: set<string>)
    ensures SeenOf(s, {}) == 0
  {
  }

  /** Walks the union of the dimensions in no particular order. */
  method PairRate(a: Scores, b: Scores) returns (r: real)
    ensures r == Rate(a, b)
  {
    hide Joint, Won, Tied, ScoreOn, Walk, SeenOf;
    ghost var all := a.Keys + b.Keys;
    ghost var joints, wons := Joint(a, b), Won(a, b);
    var wins, joint := 0, 0;
    var rest := a.Keys + b.Keys;
    ghost var seen: set<string> := {};
    NoneSeen(joints);
    NoneSeen(wons);
    assert Walk(all, rest, seen) by { StartWalk(all); }
    while rest != {}
      invariant Walk(all, rest, seen)
      invariant joint == SeenOf(joints, seen) && wins == SeenOf(wons, seen)
      decreases |rest|
    {
      var d :| d in rest;
      WalkOn(all, rest, seen, d);
      Members(a, b, d);
      CountOne(joints, seen, d);
      CountOne(wons, seen, d);
      rest := rest - {d};
      seen := seen + {d};
      if Shares(a, b, d) {
        joint := joint + 1;
        if ScoreOn(a, d).value > ScoreOn(b, d).value {
          wins := wins + 1;
        }
      }
    }
    AllSeen(a, b, seen);
    r := Quotient(wins, joint);
  }

  lemma ZeroStays()
    ensures Round4(0.0) == 0.0
  {
  }

  /** What is reported of a mean rate, with four decimals, is still a rate. */
  lemma ReportedInRange(s: seq<Scores>, i: nat)
    requires i < |s|
    ensures 0.0 <= Round4(MeanRate(s, i)) <= 1.0
    ensures -0.00005 <= Round4(MeanRate(s, i)) - MeanRate(s, i) <= 0.00005
  {
    MeanRateInRange(s, i);
    hide MeanRate, Round4;
    Round4Near(MeanRate(s, i));
  }

  /** The win rates with four decimals; ids and scores are the entries of a dictionary in order. */
  method ComputeHelmMwr(ids: seq<string>, scores: seq<Scores>) returns (out: map<string, real>)
    requires |ids| == |scores| && forall i, j :: 0 <= i < j < |ids| ==> ids[i] != ids[j]
    ensures forall i :: 0 <= i < |ids| ==> ids[i] in out && out[ids[i]] == Round4(MeanRate(scores, i))
    ensures forall id :: id in out ==> id in ids
  {
    hide Rate, Round4;
    out := map[];
    if |ids| == 1 {
      ZeroStays();
      return map[ids[0] := 0.0];
    }
    for i := 0 to |ids|
      invariant forall k :: 0 <= k < i ==> ids[k] in out && out[ids[k]] == Round4(MeanRate(scores, k))
      invariant forall id :: id in out ==> id in ids
    {
      var pairWinrateSum, pairCount := 0.0, 0;
      for j := 0 to |ids|
        invariant pairWinrateSum == RowSum(scores, i, j) && pairCount == if i < j then j - 1 else j
      {
        if ids[j] == ids[i] {
          continue;
        }
        var r := PairRate(scores[i], scores[j]);
        pairWinrateSum := pairWinrateSum + r;
        pairCount := pairCount + 1;
      }
      out := out[ids[i] := if pairCount > 0 then Round4(pairWinrateSum / pairCount as real) else 0.0];
    }
  }
}
