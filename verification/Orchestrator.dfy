/** The orchestrated evaluation: engines in sequence, any of which may fail, and one overall recommendation. */
module Orchestrator {
  import opened Lists
  import opened Outcomes
  import opened Performance
  import Calibration
  import Masking
  import Regimes
  import RiskTuning
  import StrategyFeedback

  /** Which engines raised an exception in this run. */
  datatype Failures = Failures(strategy: bool, calibration: bool, regime: bool, risk: bool)

  datatype Report = Report(
    strategy: RiskTuning.Strategy, calibration: Calibration.Result, regime: Regimes.Report, risk: RiskTuning.Risk,
    overall: Recommendation, context: Context)

  function FallbackContext(lookbackDays: int): Context {
    Context(0, true, Some(0), "dataset:empty", None, Some(lookbackDays))
  }

  function EmptyStrategy(): RiskTuning.Strategy {
    RiskTuning.Strategy(0, 0, 0, 0, 0, None)
  }

  function EmptyCalibration(ctx: Context): Calibration.Result {
    Calibration.Result(ctx.timestamp, 0, [], None, None, false, false, false)
  }

  function EmptyRegime(): Regimes.Report {
    Regimes.Report(map[], map[], map[], None)
  }

  function EmptyRisk(): RiskTuning.Risk {
    RiskTuning.Risk(None, RiskTuning.Moderate, 1.0, 55, false, false)
  }

  function DeriveOverall(
    strategy: RiskTuning.Strategy, calibration: Calibration.Result, risk: RiskTuning.Risk): Recommendation {
    var base :=
      if risk.level == RiskTuning.Critical then Disable
      else if risk.level == RiskTuning.High then Throttle
      else if risk.disable then Disable
      else if risk.throttle then Throttle
      else Keep;
    var boosted :=
      if risk.level == RiskTuning.Low && strategy.topPerformers > 0 && calibration.wellCalibrated
          && !calibration.overconfidence
      then Boost else base;
    if strategy.totalOutcomes == 0 then ObserveOnly else boosted
  }

  /** The window the calibration engine works on when given `ctx`. */
  function CalibrationRows(all: seq<Outcome>, ctx: Context, lookbackDays: int): seq<Outcome> {
    Calibration.Selected(all, ctx, lookbackDays)
  }

  function RiskRows(all: seq<Outcome>, ctx: Context, lookbackDays: int): seq<Outcome> {
    RiskTuning.Selected(all, ctx, lookbackDays)
  }

  /** The context the later engines share: the strategy engine's own, or what the run was given. */
  function SharedContext(
    all: seq<Outcome>, lookbackDays: int, given: Option<Context>, digest: Digest, failures: Failures): Context {
    if !failures.strategy then StrategyFeedback.ContextOf(all, lookbackDays, given, digest)
    else if given.Some? then given.value
    else FallbackContext(lookbackDays)
  }

  /** Each part of a report is its engine's result over the shared context, or the engine's fallback. */
  ghost predicate Produced(
    all: seq<Outcome>, lookbackDays: int, given: Option<Context>, digest: Digest, failures: Failures, report: Report)
  {
    && report.context == SharedContext(all, lookbackDays, given, digest, failures)
    && report.strategy
       == (if failures.strategy then EmptyStrategy() else StrategyFeedback.FeedbackOn(all, lookbackDays, given, digest))
    && report.calibration
       == (if failures.calibration then EmptyCalibration(report.context)
           else Calibration.Calibrate(report.context.timestamp, CalibrationRows(all, report.context, lookbackDays)))
    && (if failures.regime then report.regime == EmptyRegime()
        else Regimes.IsReport(all, lookbackDays, Some(report.context), digest, report.regime))
    && report.risk
       == (if failures.risk then EmptyRisk()
           else RiskTuning.Tune(RiskTuning.Aggregate(RiskRows(all, report.context, lookbackDays)), report.strategy,
                                report.calibration.overconfidence, report.calibration.threshold))
    && report.overall == DeriveOverall(report.strategy, report.calibration, report.risk)
  }

  method Evaluate(
    all: seq<Outcome>, lookbackDays: int, given: Option<Context>, digest: Digest,
    failures: Failures) returns (report: Report)
    ensures Produced(all, lookbackDays, given, digest, failures, report)
  {
    hide RiskTuning.Tune, RiskTuning.Aggregate, Calibration.Calibrate, Regimes.IsReport, StrategyFeedback.Figures,
      StrategyFeedback.Earning, DeriveOverall, Filter, Newest, Serialise;
    var ctx := if given.Some? then given.value else FallbackContext(lookbackDays);
    var strategy := EmptyStrategy();
    if !failures.strategy {
      strategy := StrategyFeedback.Evaluate(all, lookbackDays, given, digest);
      if strategy.context.Some? {
        ctx := strategy.context.value;
      }
    }
    var calibration := EmptyCalibration(ctx);
    if !failures.calibration {
      calibration := Calibration.Evaluate(all, lookbackDays, Some(ctx), digest);
    }
    var regime := EmptyRegime();
    if !failures.regime {
      regime := Regimes.Evaluate(all, lookbackDays, Some(ctx), digest);
    }
    var risk := EmptyRisk();
    if !failures.risk {
      var eligible := Filter(all, RiskTuning.Eligible());
      var resolved := DeriveContext(eligible, lookbackDays, Some(ctx), digest);
      var rows := FilterRowsForContext(eligible, resolved, lookbackDays);
      risk := RiskTuning.Tune(RiskTuning.Aggregate(rows), strategy, calibration.overconfidence, calibration.threshold);
    }
    report := Report(strategy, calibration, regime, risk, DeriveOverall(strategy, calibration, risk), ctx);
  }

  /** The evidence a BOOST rests on. */
  ghost predicate Warranted(riskRows: seq<Outcome>, calibration: Calibration.Result) {
    && riskRows != []
    && RiskTuning.WinRate(riskRows) >= 0.55
    && RiskTuning.Expectancy(riskRows) >= 0.0
    && (forall r :: r in riskRows && r.maxAdverse.Some? ==> Abs(r.maxAdverse.value) < 4.0)
    && |calibration.buckets| >= 2
    && calibration.slope.Some? && calibration.slope.value > 0.0
    && (forall b :: b in calibration.buckets ==> b.realized - b.predicted / 100.0 >= -0.10)
  }

  lemma BoostInputs(strategy: RiskTuning.Strategy, calibration: Calibration.Result, risk: RiskTuning.Risk)
    requires DeriveOverall(strategy, calibration, risk) == Boost
    ensures risk.level == RiskTuning.Low && calibration.wellCalibrated && !calibration.overconfidence
    ensures strategy.totalOutcomes > 0 && strategy.topPerformers > 0
  {
  }

  /** A LOW level rules out every moderate dimension, a warning, and missing data. */
  lemma LowRisk(
    agg: Option<RiskTuning.Aggregates>, strategy: RiskTuning.Strategy, overconfidence: bool, threshold: Option<int>)
    requires RiskTuning.Tune(agg, strategy, overconfidence, threshold).level == RiskTuning.Low
    ensures agg.Some? && !overconfidence
    ensures agg.value.winRate >= 0.55 && agg.value.expectancy >= 0.0
    ensures agg.value.maxDrawdown.Some? ==> agg.value.maxDrawdown.value < 4.0
    ensures RiskTuning.Tune(agg, strategy, overconfidence, threshold).multiplier == 1.0
    ensures RiskTuning.Tune(agg, strategy, overconfidence, threshold).minConfidence >= 55
  {
    hide Ratio;
  }

  /** No combination of failures and inputs yields an unwarranted BOOST, and one also needs a slice of the same rows
      with 30 or more returns that earns it. */
  lemma {:induction false} BoostIsSafe(
    all: seq<Outcome>, lookbackDays: int, given: Option<Context>, digest: Digest, failures: Failures, report: Report)
    ensures Produced(all, lookbackDays, given, digest, failures, report) && report.overall == Boost ==>
      var rows := RiskRows(all, report.context, lookbackDays);
      && !failures.strategy && !failures.calibration && !failures.risk
      && (exists key :: key in Regimes.Keys(rows, StrategyFeedback.SliceKey) &&
           Boostable(StrategyFeedback.SliceTrades(rows, key)))
      && Warranted(rows, report.calibration)
      && report.risk.multiplier == 1.0 && report.risk.minConfidence >= 55
  {
    hide DeriveOverall, RiskTuning.Expectancy, RiskTuning.WinRate, RiskTuning.Tune, RiskTuning.MaxDrawdown, Boostable,
      Calibration.Calibrate, Calibration.Selected, RiskTuning.Selected, Regimes.IsReport, StrategyFeedback.Feedback;
    if Produced(all, lookbackDays, given, digest, failures, report) && report.overall == Boost {
      var rows := RiskRows(all, report.context, lookbackDays);
      BoostInputs(report.strategy, report.calibration, report.risk);
      RiskTuning.DrawdownIsMaximum(rows);
      LowRisk(RiskTuning.Aggregate(rows), report.strategy, report.calibration.overconfidence,
          report.calibration.threshold);
      Calibration.WellCalibratedExactlyWhen(report.context.timestamp,
          CalibrationRows(all, report.context, lookbackDays));
      StrategyFeedback.TopPerformersExactlyWhen(rows, report.context);
    }
  }

  /** A BOOST over rows with no more correct than gaining ones means a non-negative sum of price changes. */
  lemma {:induction false} BoostedChanges(
    all: seq<Outcome>, lookbackDays: int, given: Option<Context>, digest: Digest, failures: Failures, report: Report)
    ensures var rows := RiskRows(all, report.context, lookbackDays);
            && Produced(all, lookbackDays, given, digest, failures, report) && report.overall == Boost
            && |Filter(rows, Won())| <= |Filter(rows, RiskTuning.Gaining())|
            ==> SumBy(rows, Change()) >= 0.0
  {
    hide Produced, Filter, SumBy, RiskTuning.Expectancy, RiskTuning.WinRate, Boostable, RiskRows;
    BoostIsSafe(all, lookbackDays, given, digest, failures, report);
    var rows := RiskRows(all, report.context, lookbackDays);
    if rows != [] && |Filter(rows, Won())| <= |Filter(rows, RiskTuning.Gaining())|
       && RiskTuning.Expectancy(rows) >= 0.0 {
      Masking.HonestExpectancy(rows);
    }
  }

  /** What each engine's failure forces. */
  lemma {:induction false} FailuresAreContained(
    all: seq<Outcome>, lookbackDays: int, given: Option<Context>, digest: Digest, failures: Failures, report: Report)
    ensures Produced(all, lookbackDays, given, digest, failures, report) ==>
      && (failures.strategy ==> report.overall == ObserveOnly)
      && (failures.calibration || failures.risk ==> report.overall != Boost)
      && (failures.risk ==> report.overall == Keep || report.overall == ObserveOnly)
  {
    hide Calibration.Calibrate, CalibrationRows, RiskRows, RiskTuning.Tune, RiskTuning.Aggregate,
    StrategyFeedback.FeedbackOn,
      Regimes.IsReport;
  }

  /** At least half of the slices (of one slice, if there is none) ask for DISABLE. */
  predicate MajorityDisabled(strategy: RiskTuning.Strategy) {
    2 * strategy.disabled >= RiskTuning.AtLeastOne(strategy.slices)
  }

  predicate MajorityThrottled(strategy: RiskTuning.Strategy) {
    2 * (strategy.throttled + strategy.disabled) >= RiskTuning.AtLeastOne(strategy.slices)
  }

  predicate BoostWarranted(strategy: RiskTuning.Strategy, calibration: Calibration.Result, level: RiskTuning.Level) {
    level == RiskTuning.Low && strategy.topPerformers > 0 && calibration.wellCalibrated && !calibration.overconfidence
  }

  function Overall(
    agg: Option<RiskTuning.Aggregates>, strategy: RiskTuning.Strategy,
        calibration: Calibration.Result): Recommendation {
    DeriveOverall(strategy, calibration,
        RiskTuning.Tune(agg, strategy, calibration.overconfidence, calibration.threshold))
  }

  lemma HalfShare(part: nat, whole: nat)
    requires whole > 0
    ensures Ratio(part as real, whole) >= 0.50 <==> 2 * part >= whole
  {
    RatioAbove(part as real, whole, 0.50);
    assert Times(0.50, whole as real) == 0.5 * whole as real;
  }

  /** What each recommendation means in terms of the risk level and of slice counts. */
  lemma {:induction false} OverallMeaning(
    agg: Option<RiskTuning.Aggregates>, strategy: RiskTuning.Strategy, calibration: Calibration.Result)
    ensures var level := RiskTuning.Classify(agg, calibration.overconfidence);
            var overall := Overall(agg, strategy, calibration);
            && (overall == ObserveOnly <==> strategy.totalOutcomes == 0)
            && (overall == Boost <==> strategy.totalOutcomes > 0 && BoostWarranted(strategy, calibration, level))
            && (overall == Disable <==> strategy.totalOutcomes > 0 && !BoostWarranted(strategy, calibration, level)
                                        && (level == RiskTuning.Critical
                                           || (level.Rank() <= 1 && MajorityDisabled(strategy))))
            && (overall == Keep <==> strategy.totalOutcomes > 0 && !BoostWarranted(strategy, calibration, level)
                                     && level.Rank() <= 1 && !MajorityThrottled(strategy))
  {
    hide Ratio, RiskTuning.Classify;
    HalfShare(strategy.disabled, RiskTuning.AtLeastOne(strategy.slices));
    HalfShare(strategy.throttled + strategy.disabled, RiskTuning.AtLeastOne(strategy.slices));
  }

  function Severity(r: Recommendation): nat {
    match r
    case Boost => 0
    case Keep => 1
    case ObserveOnly => 1
    case Throttle => 2
    case Disable => 3
  }

  /** A higher risk level gives a recommendation at least as severe, except that HIGH relaxes the DISABLE a disabled
      majority earns at a lower level to THROTTLE. */
  lemma SeverityFollowsRiskExactlyWhen(
    a: Option<RiskTuning.Aggregates>, b: Option<RiskTuning.Aggregates>, strategy: RiskTuning.Strategy,
    calibration: Calibration.Result)
    requires strategy.totalOutcomes > 0
    requires RiskTuning.Classify(a, calibration.overconfidence).Rank() <= RiskTuning.Classify(b,
        calibration.overconfidence).Rank()
    ensures var low := RiskTuning.Classify(a, calibration.overconfidence);
            var high := RiskTuning.Classify(b, calibration.overconfidence);
            Severity(Overall(a, strategy, calibration)) <= Severity(Overall(b, strategy, calibration))
            <==> !(high == RiskTuning.High && low.Rank() <= 1 && MajorityDisabled(strategy) &&
                  !BoostWarranted(strategy, calibration, low))
  {
    hide RiskTuning.Classify, Overall, MajorityDisabled, MajorityThrottled;
    OverallMeaning(a, strategy, calibration);
    OverallMeaning(b, strategy, calibration);
    MajoritiesNest(strategy);
  }

  lemma MajoritiesNest(strategy: RiskTuning.Strategy)
    ensures MajorityDisabled(strategy) ==> MajorityThrottled(strategy)
  {
  }
}
