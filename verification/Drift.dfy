/** Longitudinal drift windows, learning saturation and stability, and the health scores built on them. */
module Drift {
  import opened Lists
  import opened Outcomes

  const WINDOWS: seq<int> := [7, 30, 90, 180, 365]

  /** `root` is the square root on non-negative reals. */
  ghost predicate IsRoot(root: real -> real) {
    forall v :: v >= 0.0 ==> root(v) >= 0.0 && Times(root(v), root(v)) == v
  }

  function Min(a: real, b: real): real {
    if a <= b then a else b
  }

  function Max(a: real, b: real): real {
    if a >= b then a else b
  }

  function Clamp(v: real): real {
    Max(0.0, Min(1.0, v))
  }

  function Deviation(mean: real): Outcome -> real {
    (r: Outcome) => Times(Change()(r) - mean, Change()(r) - mean)
  }

  function Variance(rows: seq<Outcome>): real {
    Ratio(SumBy(rows, Deviation(Ratio(SumBy(rows, Change()), |rows|))), |rows|)
  }

  datatype Metric = Metric(
    windowDays: int, sampleSize: nat, confidence: real, stability: real, volatility: real, degradation: real,
    improvement: real)

  function Measure(window: seq<Outcome>, days: int, root: real -> real): Metric {
    if window == [] then Metric(days, 0, 0.0, 0.0, 0.0, 0.0, 0.0)
    else
      var confidence := Ratio(|Filter(window, Won())| as real, |window|);
      var volatility := Min(1.0, root(Variance(window)) / 10.0);
      Metric(days, |window|, confidence, Max(0.0, 1.0 - volatility), volatility,
             Max(0.0, 0.5 - confidence), Max(0.0, confidence - 0.5))
  }

  /** The metric of each window, shortest first. */
  function DriftOf(rows: seq<Outcome>, ctx: Context, root: real -> real): (drift: seq<Metric>)
    ensures |drift| == 5
  {
    seq(5, i requires 0 <= i < 5 => Measure(Window(rows, ctx, WINDOWS[i]), WINDOWS[i], root))
  }

  method ComputeLongitudinalDrift(rows: seq<Outcome>, ctx: Context, root: real -> real) returns (metrics: seq<Metric>)
    ensures metrics == DriftOf(rows, ctx, root)
  {
    metrics := [];
    for i := 0 to |WINDOWS|
      invariant metrics == DriftOf(rows, ctx, root)[..i]
    {
      var window := FilterRowsForContext(rows, ctx, WINDOWS[i]);
      metrics := metrics + [Measure(window, WINDOWS[i], root)];
    }
  }

  function HasSamples(): Metric -> bool {
    (m: Metric) => m.sampleSize > 0
  }

  datatype Saturation = Saturation(score: real, marginalGain: real, velocity: real, plateau: bool)

  function SaturationOf(drift: seq<Metric>): Saturation {
    var populated := Filter(drift, HasSamples());
    if |populated| < 2 then Saturation(0.0, 0.0, 0.0, false)
    else
      var first, last := populated[0], populated[|populated| - 1];
      var gain := first.confidence - last.confidence;
      var days := last.windowDays - first.windowDays;
      Saturation(Clamp(1.0 - Abs(gain)), gain, gain / (if days < 1 then 1 else days) as real, Abs(gain) < 0.02)
  }

  function ConfidenceOf(): Metric -> real {
    (m: Metric) => m.confidence
  }

  function ConfidenceDeviation(mean: real): Metric -> real {
    (m: Metric) => Times(m.confidence - mean, m.confidence - mean)
  }

  function ConfidenceVariance(ms: seq<Metric>): real {
    Ratio(SumBy(ms, ConfidenceDeviation(Ratio(SumBy(ms, ConfidenceOf()), |ms|))), |ms|)
  }

  function LearningStability(drift: seq<Metric>, root: real -> real): real {
    var populated := Filter(drift, HasSamples());
    if |populated| < 2 then 0.5 else Clamp(1.0 - root(ConfidenceVariance(populated)) / 0.2)
  }

  // ----- Nested windows

  /** A shorter window is the longer one, filtered. */
  lemma WindowsNested(rows: seq<Outcome>, ctx: Context, shorter: int, longer: int)
    requires shorter <= longer
    ensures Window(rows, ctx, shorter) == Filter(Window(rows, ctx, longer), InWindow(ctx.timestamp, shorter))
    ensures |Window(rows, ctx, shorter)| <= |Window(rows, ctx, longer)|
  {
    FilterAnd(rows, InWindow(ctx.timestamp, longer), InWindow(ctx.timestamp, shorter),
        InWindow(ctx.timestamp, shorter));
    FilterMembers(Window(rows, ctx, longer), InWindow(ctx.timestamp, shorter));
  }

  lemma SampleSizesNeverFall(rows: seq<Outcome>, ctx: Context, root: real -> real, i: nat, j: nat)
    requires i <= j < 5
    ensures DriftOf(rows, ctx, root)[i].sampleSize <= DriftOf(rows, ctx, root)[j].sampleSize
  {
    hide Ratio, Variance;
    WindowsNested(rows, ctx, WINDOWS[i], WINDOWS[j]);
  }

  /** The index of the shortest populated window, or 5. */
  function Shortest(drift: seq<Metric>): (k: nat)
    ensures k <= |drift|
    ensures forall i :: 0 <= i < k ==> drift[i].sampleSize == 0
    ensures k < |drift| ==> drift[k].sampleSize > 0
  {
    if drift == [] || drift[0].sampleSize > 0 then 0
    else
      var k := Shortest(drift[1..]);
      assert forall i :: 1 <= i < k + 1 ==> drift[i] == drift[1..][i - 1];
      k + 1
  }

  /** The populated windows are a suffix of the list. */
  lemma PopulatedIsSuffix(rows: seq<Outcome>, ctx: Context, root: real -> real)
    ensures var drift := DriftOf(rows, ctx, root);
            Filter(drift, HasSamples()) == drift[Shortest(drift)..]
  {
    hide DriftOf, Filter;
    var drift := DriftOf(rows, ctx, root);
    var k := Shortest(drift);
    forall i | k <= i < |drift|
      ensures drift[i].sampleSize > 0
    {
      SampleSizesNeverFall(rows, ctx, root, k, i);
    }
    assert drift == drift[..k] + drift[k..];
    FilterConcat(drift[..k], drift[k..], HasSamples());
    FilterNone(drift[..k], HasSamples());
    FilterAll(drift[k..], HasSamples());
  }

  /** Saturation compares the shortest populated window with the 365-day one. */
  lemma SaturationCompares(rows: seq<Outcome>, ctx: Context, root: real -> real)
    ensures var drift := DriftOf(rows, ctx, root);
            var k := Shortest(drift);
            && (k < 4 ==> SaturationOf(drift).marginalGain == drift[k].confidence - drift[4].confidence)
            && (k < 4 ==> (SaturationOf(drift).plateau <==> Abs(drift[k].confidence - drift[4].confidence) < 0.02))
            && (k >= 4 ==> SaturationOf(drift) == Saturation(0.0, 0.0, 0.0, false))
  {
    hide Ratio, DriftOf;
    PopulatedIsSuffix(rows, ctx, root);
  }

  // ----- Score ranges

  ghost predicate Unit(v: real) {
    0.0 <= v <= 1.0
  }

  lemma {:induction false} DeviationsNonNegative(rows: seq<Outcome>, mean: real)
    ensures SumBy(rows, Deviation(mean)) >= 0.0
  {
    if rows != [] {
      DeviationsNonNegative(rows[..|rows| - 1], mean);
      SquareNonNegative(Change()(rows[|rows| - 1]) - mean);
    }
  }

  lemma VarianceNonNegative(rows: seq<Outcome>)
    ensures Variance(rows) >= 0.0
  {
    hide Ratio;
    var mean := Ratio(SumBy(rows, Change()), |rows|);
    DeviationsNonNegative(rows, mean);
    RatioNonNegative(SumBy(rows, Deviation(mean)), |rows|);
  }

  /** Every score of a window lies in [0, 1]; stability complements volatility where there is data; at most one of
      improvement and degradation is positive, and together they measure the distance of the win rate from 1/2. */
  lemma MetricRanges(window: seq<Outcome>, days: int, root: real -> real)
    requires IsRoot(root)
    ensures var m := Measure(window, days, root);
            && Unit(m.confidence) && Unit(m.stability) && Unit(m.volatility) && Unit(m.degradation)
               && Unit(m.improvement)
            && (window != [] ==> m.stability == 1.0 - m.volatility)
            && !(m.degradation > 0.0 && m.improvement > 0.0)
            && (window != [] ==> m.improvement - m.degradation == m.confidence - 0.5)
  {
    hide Ratio, Variance;
    VarianceNonNegative(window);
    FilterMembers(window, Won());
    ShareBounds(|Filter(window, Won())|, |window|);
  }

  /** Volatility saturates exactly when the variance of the returns reaches 100. */
  lemma {:induction false} VolatilitySaturates(window: seq<Outcome>, days: int, root: real -> real)
    requires IsRoot(root) && window != []
    ensures Measure(window, days, root).volatility == 1.0 <==> Variance(window) >= 100.0
  {
    hide Ratio, Variance, Times;
    VarianceNonNegative(window);
    var sd := root(Variance(window));
    RootOrder(sd, Variance(window));
  }

  lemma RootOrder(sd: real, v: real)
    requires sd >= 0.0 && Times(sd, sd) == v
    ensures sd >= 10.0 <==> v >= 100.0
  {
    if sd >= 10.0 {
      assert Times(sd, sd) == Times(sd - 10.0, sd - 10.0) + 20.0 * sd - 100.0;
      SquareNonNegative(sd - 10.0);
    } else {
      ProductPositive(10.0 - sd, 10.0 + sd);
      assert Times(10.0 - sd, 10.0 + sd) == 100.0 - Times(sd, sd);
    }
  }

  lemma {:induction false} ConfidenceDeviationsNonNegative(ms: seq<Metric>, mean: real)
    ensures SumBy(ms, ConfidenceDeviation(mean)) >= 0.0
    ensures SumBy(ms, ConfidenceDeviation(mean)) == 0.0 <==> forall m :: m in ms ==> m.confidence == mean
  {
    hide Times;
    if ms != [] {
      var k := |ms| - 1;
      ConfidenceDeviationsNonNegative(ms[..k], mean);
      SquareNonNegative(ms[k].confidence - mean);
      assert ms == ms[..k] + [ms[k]];
    }
  }

  lemma {:induction false} ConstantSum(ms: seq<Metric>, c: real)
    requires forall m :: m in ms ==> m.confidence == c
    ensures SumBy(ms, ConfidenceOf()) == Times(c, |ms| as real)
  {
    if ms != [] {
      ConstantSum(ms[..|ms| - 1], c);
    }
  }

  lemma ConstantMean(ms: seq<Metric>, c: real)
    requires ms != [] && forall m :: m in ms ==> m.confidence == c
    ensures Ratio(SumBy(ms, ConfidenceOf()), |ms|) == c
  {
    ConstantSum(ms, c);
    var n := |ms| as real;
    assert c * n / n == c;
  }

  /** Learning stability is a score, and it is perfect exactly when the populated windows agree on their win rate. */
  lemma LearningStabilityMeaning(drift: seq<Metric>, root: real -> real)
    requires IsRoot(root)
    ensures Unit(LearningStability(drift, root))
    ensures var populated := Filter(drift, HasSamples());
            |populated| >= 2 ==>
              (LearningStability(drift, root) == 1.0 <==>
                forall p, q :: p in populated && q in populated ==> p.confidence == q.confidence)
  {
    hide Ratio, Times, Filter;
    var populated := Filter(drift, HasSamples());
    if |populated| >= 2 {
      var mean := Ratio(SumBy(populated, ConfidenceOf()), |populated|);
      ConfidenceDeviationsNonNegative(populated, mean);
      RatioNonNegative(SumBy(populated, ConfidenceDeviation(mean)), |populated|);
      SquareNonNegative(root(ConfidenceVariance(populated)));
      if forall p, q :: p in populated && q in populated ==> p.confidence == q.confidence {
        assert populated[0] in populated;
        ConstantMean(populated, populated[0].confidence);
      }
    }
  }

  /** The eleven dimensions of scientific health. */
  datatype Health = Health(
    replayReadiness: real, versionCompleteness: real, evidenceQuality: real, featureProvenance: real,
    learningStability: real,
    calibrationQuality: real, driftStability: real, learningSaturation: real, explainability: real, auditCompleteness:
    real,
    confidenceConsistency: real)
  {
    function Score(): real {
      (replayReadiness + versionCompleteness + evidenceQuality + featureProvenance + learningStability
       + calibrationQuality + driftStability + learningSaturation + explainability + auditCompleteness
       + confidenceConsistency) / 11.0
    }

    ghost predicate InRange() {
      && Unit(replayReadiness) && Unit(versionCompleteness) && Unit(evidenceQuality) && Unit(featureProvenance)
      && Unit(learningStability) && Unit(calibrationQuality) && Unit(driftStability) && Unit(learningSaturation)
      && Unit(explainability) && Unit(auditCompleteness) && Unit(confidenceConsistency)
    }

    ghost predicate Perfect() {
      && replayReadiness == versionCompleteness == evidenceQuality == featureProvenance == learningStability == 1.0
      && calibrationQuality == driftStability == learningSaturation == explainability == auditCompleteness == 1.0
      && confidenceConsistency == 1.0
    }
  }

  function StabilityOf(): Metric -> real {
    (m: Metric) => m.stability
  }

  function ScientificHealth(
    ctx: Context, versionsSet: nat, versions: nat, evidence: nat, drift: seq<Metric>, explainable: bool,
    calibrationQuality: real, consistency: real, provenance: real, root: real -> real): Health
  {
    Health(
      if ctx.replay then 1.0 else 0.5,
      Ratio(versionsSet as real, versions),
      Min(1.0, evidence as real / 10.0),
      provenance,
      LearningStability(drift, root),
      calibrationQuality,
      Ratio(SumBy(drift, StabilityOf()), |drift|),
      SaturationOf(drift).score,
      if explainable then 1.0 else 0.0,
      if evidence > 0 && explainable then 1.0 else 0.5,
      consistency)
  }

  /** Health over measured drift is a score; it is perfect exactly when every dimension is. */
  lemma HealthRanges(
    rows: seq<Outcome>, ctx: Context, versionsSet: nat, versions: nat, evidence: nat, explainable: bool,
    calibrationQuality: real, consistency: real, provenance: real, root: real -> real)
    requires IsRoot(root) && versionsSet <= versions
    requires Unit(calibrationQuality) && Unit(consistency) && Unit(provenance)
    ensures var drift := DriftOf(rows, ctx, root);
            var h := ScientificHealth(ctx, versionsSet, versions, evidence, drift, explainable, calibrationQuality,
                consistency, provenance, root);
            && h.InRange() && Unit(h.Score())
            && (h.Score() == 1.0 <==> h.Perfect())
            && (h.Perfect() ==> ctx.replay && evidence >= 10 && explainable)
  {
    hide Ratio, Filter, LearningStability, DriftOf, SumBy;
    var drift := DriftOf(rows, ctx, root);
    ShareBounds(versionsSet, versions);
    LearningStabilityMeaning(drift, root);
    MeanStability(rows, ctx, root);
  }

  lemma MeanStability(rows: seq<Outcome>, ctx: Context, root: real -> real)
    requires IsRoot(root)
    ensures var drift := DriftOf(rows, ctx, root);
            Unit(Ratio(SumBy(drift, StabilityOf()), |drift|))
  {
    hide Ratio, Measure;
    var drift := DriftOf(rows, ctx, root);
    forall m | m in drift
      ensures 0.0 <= StabilityOf()(m) <= 1.0
    {
      var i :| 0 <= i < 5 && drift[i] == m;
      MetricRanges(Window(rows, ctx, WINDOWS[i]), WINDOWS[i], root);
    }
    MeanBounds(drift, StabilityOf(), 0.0, 1.0);
  }
}
