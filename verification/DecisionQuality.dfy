/** The quality of the strategy engine's decisions, computed from its slices, and the sixteen-dimension score. */
module DecisionQuality {
  import opened Drift
  import opened Lists
  import opened Performance

  /** The figures of a slice that its decision is judged by. */
  datatype Slice = Slice(sampleSize: nat, winRate: real, avgReturn: real, recommendation: Recommendation)

  /** The slice of some returns. */
  function SliceOf(trades: seq<Trade>): Slice {
    var s := StatsOf(trades);
    Slice(s.SampleSize(), s.WinRate(), Ratio(Total(trades), |trades|), Verdict(s))
  }

  function Promoted(): Slice -> bool {
    (s: Slice) => s.recommendation == Boost || s.recommendation == Keep
  }

  function Winning(): Slice -> bool {
    (s: Slice) => s.winRate >= 0.50
  }

  /** Winning slices are promoted and the others are not. */
  function Stable(): Slice -> bool {
    (s: Slice) => Winning()(s) <==> Promoted()(s)
  }

  function SampleConfidence(s: Slice): real {
    Clamp(s.sampleSize as real / 30.0)
  }

  function Reliability(s: Slice): real {
    var impact := Clamp((s.avgReturn + 2.0) / 4.0);
    Clamp(s.winRate * 0.45 + impact * 0.35 + SampleConfidence(s) * 0.20)
  }

  function Weight(rec: Recommendation): real {
    if rec == Boost then 1.0 else if rec == Keep then 0.65 else 0.35
  }

  function Priority(s: Slice): real {
    Clamp(Reliability(s) * 0.55 + Weight(s.recommendation) * 0.30 + SampleConfidence(s) * 0.15)
  }

  /** How far the engine's confidence in a slice moved from one half. */
  function Delta(): Slice -> real {
    (s: Slice) => Priority(s) - 0.5
  }

  function AbsDelta(): Slice -> real {
    (s: Slice) => Abs(Priority(s) - 0.5)
  }

  datatype Quality = Quality(
    precision: real, recall: real, stability: real, calibrationEffectiveness: real, learningImpact: real,
    sampleSize: nat)

  function Samples(slices: seq<Slice>): nat {
    if slices == [] then 0 else Samples(slices[..|slices| - 1]) + slices[|slices| - 1].sampleSize
  }

  function QualityOf(slices: seq<Slice>): Quality {
    if slices == [] then Quality(0.0, 0.0, 0.0, 0.0, 0.0, 0)
    else
      var promoted, winning := Filter(slices, Promoted()), Filter(slices, Winning());
      Quality(Ratio(|Filter(promoted, Winning())| as real, |promoted|),
              Ratio(|Filter(winning, Promoted())| as real, |winning|),
              Ratio(|Filter(slices, Stable())| as real, |slices|),
              Clamp(1.0 - Ratio(SumBy(slices, AbsDelta()), |slices|) / 0.5),
              Max(-1.0, Min(1.0, Ratio(SumBy(slices, Delta()), |slices|))),
              Samples(slices))
  }

  function Consistency(): Slice -> real {
    (s: Slice) =>
      if s.winRate >= 0.50 && Promoted()(s) then 1.0
      else if s.winRate < 0.40 && (s.recommendation == Throttle || s.recommendation == Disable) then 1.0
      else if s.recommendation == ObserveOnly then 0.8
      else Max(0.0, 1.0 - Abs(s.winRate - 0.5) * 2.0)
  }

  /** The sixteen-dimension score: five decision dimensions join the eleven, four of them zero while there are no
      decisions. */
  function AdaptiveScore(h: Health, slices: seq<Slice>): real {
    var q := QualityOf(slices);
    var decisions := if q.sampleSize > 0 then
                       (q.precision + q.recall) / 2.0 + Max(0.0, q.learningImpact) + q.stability
                       + (q.precision + q.stability + q.calibrationEffectiveness) / 3.0
                     else 0.0;
    (h.Score() * 11.0 + decisions + Ratio(SumBy(slices, Consistency()), |slices|)) / 16.0
  }

  // ----- What the decisions are

  /** BOOST or KEEP is recommended exactly for ten returns or more, half of them gaining, and no negative total. */
  lemma PromotedExactlyWhen(trades: seq<Trade>)
    ensures var v := Verdict(StatsOf(trades));
            v == Boost || v == Keep <==> |trades| >= 10 && 2 * Gains(trades) >= |trades| && Total(trades) >= 0.0
  {
    hide Verdict, StatsOf, Total, Gains, ProfitsCoverLosses;
    VerdictExactlyWhen(trades);
  }

  /** What the figures of any returns satisfy. */
  ghost predicate Coherent(s: Slice) {
    Unit(s.winRate) && (Promoted()(s) ==> Winning()(s))
  }

  /** The figures are those of some returns. */
  ghost predicate Earned(s: Slice) {
    exists trades: seq<Trade> :: SliceOf(trades) == s
  }

  lemma {:induction false} EarnedIsCoherent(s: Slice)
    requires Earned(s)
    ensures Coherent(s)
  {
    hide StatsOf, Total, Gains, Verdict, Ratio;
    var trades :| SliceOf(trades) == s;
    var stats := StatsOf(trades);
    ShareBounds(stats.wins, stats.SampleSize());
    PromotedExactlyWhen(trades);
    if trades != [] {
      VerdictTests(trades);
    }
  }

  ghost predicate AllEarned(slices: seq<Slice>) {
    forall s :: s in slices ==> Earned(s)
  }

  /** Where one predicate implies another, the elements that satisfy both or neither are all but the difference. */
  lemma {:induction false} AgreeingCount(slices: seq<Slice>)
    requires AllEarned(slices)
    ensures |Filter(slices, Stable())|
         == |slices| - |Filter(slices, Winning())| + |Filter(slices, Promoted())|
    ensures Filter(Filter(slices, Promoted()), Winning()) == Filter(slices, Promoted())
    ensures Filter(Filter(slices, Winning()), Promoted()) == Filter(slices, Promoted())
  {
    hide Promoted, Winning, Earned;
    if slices != [] {
      var m := |slices| - 1;
      AgreeingCount(slices[..m]);
      assert slices[m] in slices;
      EarnedIsCoherent(slices[m]);
      FilterSnoc(Filter(slices[..m], Promoted()), slices[m], Winning());
      FilterSnoc(Filter(slices[..m], Winning()), slices[m], Promoted());
    }
  }

  /** Precision only says whether anything is promoted; recall is the promoted share of the winning slices, and
      stability falls short of 1 by the share of winning slices that are not promoted. */
  lemma {:induction false} QualityMeaning(slices: seq<Slice>)
    requires slices != [] && AllEarned(slices)
    ensures var q := QualityOf(slices);
            var promoted, winning := |Filter(slices, Promoted())|, |Filter(slices, Winning())|;
            && promoted <= winning <= |slices|
            && q.precision == (if promoted > 0 then 1.0 else 0.0)
            && q.recall == Ratio(promoted as real, winning)
            && q.stability == 1.0 - Ratio((winning - promoted) as real, |slices|)
  {
    hide Promoted, Winning, Stable, Ratio, SumBy, Filter, Samples, Clamp, Max, Min, Delta, AbsDelta;
    AgreeingCount(slices);
    FilterMembers(slices, Winning());
    FilterMembers(Filter(slices, Winning()), Promoted());
    var promoted, winning := |Filter(slices, Promoted())|, |Filter(slices, Winning())|;
    if promoted > 0 {
      RatioSelf(promoted);
    } else {
      NoRatio(0);
    }
    ComplementShare(winning - promoted, |slices| - (winning - promoted));
  }

  lemma NoRatio(n: nat)
    ensures Ratio(0.0, n) == 0.0
  {
  }

  // ----- How high the score can get

  lemma ConsistencyRange(s: Slice)
    requires Coherent(s)
    ensures Unit(Consistency()(s))
  {
  }

  lemma DeltaRange(s: Slice)
    ensures -0.5 <= Delta()(s) <= 0.5 && AbsDelta()(s) >= 0.0 && Delta()(s) <= AbsDelta()(s)
  {
    hide Reliability, SampleConfidence;
  }

  lemma {:induction false} MeanRanges(slices: seq<Slice>)
    requires slices != [] && AllEarned(slices)
    ensures var mean, spread := Ratio(SumBy(slices, Delta()), |slices|), Ratio(SumBy(slices, AbsDelta()), |slices|);
            -0.5 <= mean <= 0.5 && mean <= spread && 0.0 <= spread
    ensures Unit(Ratio(SumBy(slices, Consistency()), |slices|))
  {
    hide SumBy, Ratio, Delta, AbsDelta, Consistency, Earned;
    forall s | s in slices
      ensures -0.5 <= Delta()(s) <= 0.5 && AbsDelta()(s) >= 0.0 && Delta()(s) <= AbsDelta()(s)
      ensures 0.0 <= Consistency()(s) <= 1.0
    {
      DeltaRange(s);
      EarnedIsCoherent(s);
      ConsistencyRange(s);
    }
    MeanBounds(slices, Delta(), -0.5, 0.5);
    MeanBounds(slices, Consistency(), 0.0, 1.0);
    SumOrder(slices, Delta(), AbsDelta());
    SumNonNegative(slices, AbsDelta());
    RatioNonNegative(SumBy(slices, AbsDelta()), |slices|);
    OrderedMeans(SumBy(slices, Delta()), SumBy(slices, AbsDelta()), |slices|);
  }

  lemma OrderedMeans(a: real, b: real, n: nat)
    requires n > 0 && a <= b
    ensures Ratio(a, n) <= Ratio(b, n)
  {
    QuotientOrder(a, b, n as real);
  }

  /** What the figures of any decisions satisfy: learning impact and calibration effectiveness exclude each other. */
  lemma {:induction false} QualityRanges(slices: seq<Slice>)
    requires AllEarned(slices)
    ensures var q := QualityOf(slices);
            && Unit(q.precision) && Unit(q.recall) && Unit(q.stability) && Unit(q.calibrationEffectiveness)
            && -0.5 <= q.learningImpact <= 0.5
            && (q.learningImpact >= 0.0 ==> q.calibrationEffectiveness <= 1.0 - 2.0 * q.learningImpact)
  {
    hide Ratio, SumBy, Filter, Samples, Delta, AbsDelta, Promoted, Winning, Stable;
    if slices != [] {
      var promoted, winning := |Filter(slices, Promoted())|, |Filter(slices, Winning())|;
      QualityMeaning(slices);
      MeanRanges(slices);
      ShareBounds(promoted, winning);
      ShareBounds(winning - promoted, |slices|);
    }
  }

  lemma {:induction false} ConsistencyMean(slices: seq<Slice>)
    requires AllEarned(slices)
    ensures Unit(Ratio(SumBy(slices, Consistency()), |slices|))
    ensures slices == [] ==> Ratio(SumBy(slices, Consistency()), |slices|) == 0.0
  {
    if slices != [] {
      MeanRanges(slices);
    }
  }

  lemma SumOfDimensions(h: Health)
    requires h.InRange()
    ensures 0.0 <= h.Score() * 11.0 <= 11.0
  {
    assert h.Score() * 11.0 == h.replayReadiness + h.versionCompleteness + h.evidenceQuality + h.featureProvenance
      + h.learningStability + h.calibrationQuality + h.driftStability + h.learningSaturation + h.explainability
      + h.auditCompleteness + h.confidenceConsistency;
  }

  lemma NothingDecided()
    ensures QualityOf([]).sampleSize == 0
  {
  }

  /** The score of any slices stays in [0, 1] and never exceeds 91/96; above 83/96 some slice is promoted, and above
      11/16 there is a slice. */
  lemma {:induction false} AdaptiveScoreRange(h: Health, slices: seq<Slice>)
    requires h.InRange() && AllEarned(slices)
    ensures var score := AdaptiveScore(h, slices);
            && 0.0 <= score <= 91.0 / 96.0
            && (score > 83.0 / 96.0 ==> exists s :: s in slices && Promoted()(s))
            && (score > 11.0 / 16.0 ==> slices != [])
  {
    hide QualityOf, Ratio, SumBy, Filter, Promoted, Winning, Stable, Consistency, Health.Score, Health.InRange;
    QualityRanges(slices);
    ConsistencyMean(slices);
    SumOfDimensions(h);
    NothingDecided();
    if slices != [] {
      QualityMeaning(slices);
      NoRatio(|Filter(slices, Winning())|);
      FilterMembers(slices, Promoted());
      assert Filter(slices, Promoted()) != [] ==> Promoted()(Filter(slices, Promoted())[0]);
    }
  }
}
