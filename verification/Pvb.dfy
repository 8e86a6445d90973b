/** benchmark/framework/pvb.py: the running average of the value estimate and the mean correction
    it gives a realized score. */
module Pvb {
  import opened Wrappers
  import opened Rounding
  import opened Sums

  const EMA_ALPHA: real := 0.15

  function Clamp01(x: real): real {
    if x < 0.0 then 0.0 else if x > 1.0 then 1.0 else x
  }

  /** How strong both signals are together. */
  function Strength(prosperity: real, workers: real): (v: real)
    ensures 0.0 <= v <= 1.0
  {
    var p, w := Clamp01(prosperity / 100.0), Clamp01(workers / 24.0);
    UnitProduct(p, w);
    p * w
  }

  lemma UnitProduct(p: real, w: real)
    requires 0.0 <= p <= 1.0 && 0.0 <= w <= 1.0
    ensures 0.0 <= p * w <= 1.0
  {
    SignOfProduct(p, w);
    SignOfProduct(p, 1.0 - w);
    assert p * (1.0 - w) == p - p * w;
  }

  /** The value of a village, printed with six decimals: high only when both prosperity and headcount
      are, 0 up to half a millionth, 1 from half a millionth below. */
  function Estimate(prosperity: real, workers: real): (v: real)
    ensures 0.0 <= v <= 1.0
    ensures v == 0.0 <==> Strength(prosperity, workers) <= 0.0000005
    ensures v == 1.0 <==> Strength(prosperity, workers) >= 0.9999995
  {
    Round6Near(Strength(prosperity, workers));
    RoundingThresholds(Strength(prosperity, workers));
    Round6(Strength(prosperity, workers))
  }

  lemma RoundingThresholds(x: real)
    requires 0.0 <= x <= 1.0
    ensures Round6(x) == 0.0 <==> x <= 0.0000005
    ensures Round6(x) == 1.0 <==> x >= 0.9999995
  {
    var y := x * 1000000.0;
    assert y <= 0.5 <==> RoundHalfEven(y) <= 0;
    assert y >= 999999.5 <==> RoundHalfEven(y) >= 1000000;
    HalfEvenFacts(y, 0);
    HalfEvenFacts(y, 1000000);
  }

  /** In range the value is the product of the shares of 100 prosperity and 24 workers; more of either
      counts as that much, and without either the village is worth nothing. */
  lemma EstimateIsProduct(prosperity: real, workers: real)
    ensures 0.0 <= prosperity <= 100.0 && 0.0 <= workers <= 24.0 ==>
      Estimate(prosperity, workers) == Round6(prosperity * workers / 2400.0)
    ensures prosperity >= 100.0 ==> Estimate(prosperity, workers) == Estimate(100.0, workers)
    ensures workers >= 24.0 ==> Estimate(prosperity, workers) == Estimate(prosperity, 24.0)
    ensures prosperity <= 0.0 || workers <= 0.0 ==> Estimate(prosperity, workers) == 0.0
  {
    if 0.0 <= prosperity <= 100.0 && 0.0 <= workers <= 24.0 {
      ShareProduct(prosperity, workers);
      assert Strength(prosperity, workers) == prosperity * workers / 2400.0;
    }
    if prosperity <= 0.0 || workers <= 0.0 {
      assert Strength(prosperity, workers) == 0.0;
    }
    hide Round6;
  }

  lemma ShareProduct(p: real, w: real)
    ensures (p / 100.0) * (w / 24.0) == p * w / 2400.0
    ensures 0.0 <= p <= 100.0 ==> Clamp01(p / 100.0) == p / 100.0
    ensures 0.0 <= w <= 24.0 ==> Clamp01(w / 24.0) == w / 24.0
  {
    var a, b := p / 100.0, w / 24.0;
    assert p == 100.0 * a && w == 24.0 * b;
    assert p * w == 2400.0 * (a * b);
  }

  /** Without the rounding the extremes would need empty and full signals; with it, a village of one
      worker and hardly any prosperity is worth nothing. */
  lemma NearlyEmptyIsWorthNothing()
    ensures Strength(0.001, 1.0) > 0.0 && Estimate(0.001, 1.0) == 0.0
  {
    assert 0.001 / 100.0 == 0.00001;
    assert 0.00001 * (1.0 / 24.0) <= 0.0000005;
    assert Clamp01(1.0 / 24.0) == 1.0 / 24.0;
  }

  // ---- the recurrences on the samples so far -----------------------------------------------

  function Blend(average: real, v: real): real {
    (1.0 - EMA_ALPHA) * average + EMA_ALPHA * v
  }

  function Average(samples: seq<real>): real
    requires samples != []
  {
    if |samples| == 1 then samples[0]
    else Blend(Average(samples[..|samples| - 1]), samples[|samples| - 1])
  }

  /** What the samples after the first fell short of the average before them, in all. */
  function Corrections(samples: seq<real>): real {
    if |samples| <= 1 then 0.0
    else Corrections(samples[..|samples| - 1]) + (Average(samples[..|samples| - 1]) - samples[|samples| - 1])
  }

  /** The corrections telescope: only the first sample and the last average remain. */
  lemma {:induction false} CorrectionsTelescope(samples: seq<real>)
    requires samples != []
    ensures Corrections(samples) == (samples[0] - Average(samples)) / 0.15
  {
    if |samples| > 1 {
      CorrectionsTelescope(samples[..|samples| - 1]);
    }
  }

  predicate UnitSamples(samples: seq<real>) {
    forall i :: 0 <= i < |samples| ==> 0.0 <= samples[i] <= 1.0
  }

  lemma {:induction false} AverageInRange(samples: seq<real>)
    requires samples != [] && UnitSamples(samples)
    ensures 0.0 <= Average(samples) <= 1.0
  {
    if |samples| > 1 {
      AverageInRange(samples[..|samples| - 1]);
    }
  }

  function MeanCorrection(samples: seq<real>): real {
    if samples == [] then 0.0 else Corrections(samples) / |samples| as real
  }

  function MostCorrection(n: nat): real
    requires n > 0
  {
    1.0 / (0.15 * n as real)
  }

  predicate NoMoreThan(x: real, most: real) {
    -most <= x <= most
  }

  /** The mean correction of n samples is at most 1 / (0.15 n) in size, and is positive exactly
      when the average ends below the first sample. */
  lemma MeanCorrectionShrinks(samples: seq<real>)
    requires samples != [] && UnitSamples(samples)
    ensures NoMoreThan(MeanCorrection(samples), MostCorrection(|samples|))
    ensures MeanCorrection(samples) > 0.0 <==> Average(samples) < samples[0]
  {
    CorrectionsTelescope(samples);
    AverageInRange(samples);
    BoundQuotient(Corrections(samples), |samples|);
    hide Average, Corrections, NoMoreThan, MostCorrection;
  }

  lemma BoundQuotient(c: real, n: nat)
    requires n > 0 && -1.0 <= c * EMA_ALPHA <= 1.0
    ensures NoMoreThan(c / n as real, MostCorrection(n))
    ensures c / n as real > 0.0 <==> c > 0.0
  {
    var m := n as real;
    var d := EMA_ALPHA * m;
    assert c / m == c * EMA_ALPHA / d;
    assert c / m * m == c;
  }

  /** Long runs lose the correction: past 1 / (0.15 e) samples it stays within e. */
  lemma CorrectionVanishes(samples: seq<real>, e: real)
    requires samples != [] && UnitSamples(samples)
    requires e > 0.0 && 0.15 * |samples| as real * e >= 1.0
    ensures -e <= MeanCorrection(samples) <= e
  {
    MeanCorrectionShrinks(samples);
    hide MeanCorrection;
    InverseBound(EMA_ALPHA * |samples| as real, e);
  }

  lemma InverseBound(d: real, e: real)
    requires d > 0.0 && d * e >= 1.0
    ensures 1.0 / d <= e && -1.0 / d >= -e
  {
    var q := 1.0 / d;
    assert q * d == 1.0;
    assert q > e ==> (q - e) * d > 0.0;
  }

  // ---- the tracker ------------------------------------------------------------------------------

  datatype Finalized = Finalized(pvbScore: real, baseline: real, meanCorrection: real, ticks: nat)

  function Score(realized: Option<real>): real {
    if realized.Some? then realized.value else 0.0
  }

  class PVBTracker {
    var initial: Option<real>
    var emaUnderF: Option<real>
    var sumCorrections: real
    var ticks: nat
    var lastAgentId: string
    ghost var samples: seq<real>

    /** The fields are the recurrences over the samples. */
    ghost predicate Valid()
      reads this
    {
      && UnitSamples(samples)
      && ticks == |samples|
      && initial == (if samples == [] then None else Some(samples[0]))
      && emaUnderF == (if samples == [] then None else Some(Average(samples)))
      && sumCorrections == Corrections(samples)
    }

    constructor ()
      ensures Valid() && samples == [] && lastAgentId == ""
    {
      initial, emaUnderF, sumCorrections, ticks, lastAgentId := None, None, 0.0, 0, "";
      samples := [];
    }

    method RecordTick(prosperity: real, workers: real, agentId: string)
      requires Valid()
      modifies this
      ensures Valid() && samples == old(samples) + [Estimate(prosperity, workers)]
      ensures lastAgentId == if agentId == "" then old(lastAgentId) else agentId
    {
      var v := Estimate(prosperity, workers);
      hide Estimate, Blend;
      assert (samples + [v])[..|samples|] == samples;
      if initial.None? {
        initial, emaUnderF := Some(v), Some(v);
      } else {
        var corr := emaUnderF.value - v;
        sumCorrections := sumCorrections + corr;
        emaUnderF := Some(Blend(emaUnderF.value, v));
      }
      ticks := ticks + 1;
      samples := samples + [v];
      if agentId != "" {
        lastAgentId := agentId;
      }
    }

    /** Everything is printed with six decimals. The adjusted score is the realized one less the first
        estimate, up to 1 / (0.15 ticks) and the rounding. A realized score that is not a finite
        number is None and counts as 0. */
    method Finalize(realized: Option<real>) returns (f: Finalized)
      requires Valid()
      ensures f.ticks == |samples|
      ensures f.baseline == Round6(if samples == [] then 0.0 else samples[0])
      ensures f.meanCorrection == Round6(MeanCorrection(samples))
      ensures f.pvbScore == Round6(Score(realized) - (if samples == [] then 0.0 else samples[0]) +
          MeanCorrection(samples))
      ensures samples == [] ==> f.pvbScore == Round6(if realized.None? then 0.0 else realized.value)
      ensures samples != [] ==> (
        NoMoreThan(f.pvbScore - (Score(realized) - samples[0]), MostCorrection(|samples|) + 0.0000005))
    {
      var baseline := if initial.Some? then initial.value else 0.0;
      var score := Score(realized);
      var meanCorr := if ticks > 0 then sumCorrections / ticks as real else 0.0;
      if samples != [] { MeanCorrectionShrinks(samples); }
      var pvb := score - baseline + meanCorr;
      Round6Near(pvb);
      hide Round6, MeanCorrection, Corrections, Average;
      f := Finalized(Round6(pvb), Round6(baseline), Round6(meanCorr), ticks);
    }

    method Reset()
      modifies this
      ensures Valid() && samples == [] && lastAgentId == ""
    {
      initial, emaUnderF, sumCorrections, ticks, lastAgentId := None, None, 0.0, 0, "";
      samples := [];
    }
  }
}
