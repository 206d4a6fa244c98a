/** When a BOOST can stand over price changes with a negative sum: an exact condition on the counts of rows. */
module FallingBoost {
  import opened Lists
  import opened Masking
  import opened Orchestrator
  import opened OutcomeTracker
  import opened Outcomes
  import opened Performance
  import Calibration
  import LeastSquares
  import Regimes
  import RiskTuning
  import StrategyFeedback

  /** A table the tracker can hold whose evaluation, with no engine failing, is a BOOST over rows with these counts
      and a negative sum of price changes. */
  ghost predicate HiddenBoost(
    all: seq<Outcome>, lookbackDays: int, given: Option<Context>, digest: Digest, report: Report, n: nat,
    correct: nat, gaining: nat)
  {
    var rows := RiskRows(all, report.context, lookbackDays);
    && Real(all) && Produced(all, lookbackDays, given, digest, Failures(false, false, false, false), report)
    && report.overall == Boost
    && Counted(rows, n, correct, gaining) && SumBy(rows, Change()) < 0.0
  }

  predicate CanHide(n: nat, correct: nat, gaining: nat) {
    correct > gaining >= 18 && n - correct >= 1 && n - correct >= 30 - gaining && 20 * correct >= 11 * n
  }

  // ----- Counts a hidden loss needs

  ghost predicate Signalled(rows: seq<Outcome>) {
    forall r :: r in rows ==> Tracked(r) && (r.signal == "BUY" || r.signal == "SELL")
  }

  lemma LastOfKey(r: Outcome)
    requires r.signal == "BUY" || r.signal == "SELL"
    ensures var key := StrategyFeedback.SliceKey(r);
            key != "" && key[|key| - 1] == if r.signal == "BUY" then 'Y' else 'L'
  {
    var key := StrategyFeedback.SliceKey(r);
    assert key[|key| - 1] == r.signal[|r.signal| - 1];
  }

  lemma SliceHasLosses(slice: seq<Outcome>)
    requires ProfitsCoverLosses(Regimes.TradesOf(slice))
    ensures |Filter(slice, RiskTuning.NotGaining())| >= 1
  {
    var trades := Regimes.TradesOf(slice);
    StrategyFeedback.TradesListed(slice);
    var t :| t in trades && t.ret < 0.0;
    var i :| 0 <= i < |trades| && trades[i] == t;
    assert Change()(slice[i]) == t.ret;
    assert slice[i] in slice && RiskTuning.NotGaining()(slice[i]);
    FilterMembers(slice, RiskTuning.NotGaining());
  }

  lemma WrongSide(r: Outcome)
    requires Tracked(r)
    ensures r.signal == "BUY" && RiskTuning.NotGaining()(r) ==> Calibration.Lost()(r)
    ensures r.signal != "BUY" && RiskTuning.Gaining()(r) ==> Calibration.Lost()(r)
  {
    assert Change()(r) == r.priceChange.value;
  }

  /** In a slice of one signal, every row on the wrong side of the price is an incorrect one: the rows that did not gain
      of a BUY slice, the rows that gained of a SELL slice. */
  lemma {:induction false} IncorrectOfSlice(slice: seq<Outcome>)
    requires Signalled(slice) && forall r, q :: r in slice && q in slice ==> r.signal == q.signal
    ensures |Filter(slice, Calibration.Lost())| >= |Filter(slice, RiskTuning.NotGaining())|
         || |Filter(slice, Calibration.Lost())| >= |Filter(slice, RiskTuning.Gaining())|
  {
    hide Filter, Tracked;
    forall r | r in slice
      ensures r.signal == "BUY" && RiskTuning.NotGaining()(r) ==> Calibration.Lost()(r)
      ensures r.signal == "SELL" && RiskTuning.Gaining()(r) ==> Calibration.Lost()(r)
    {
      WrongSide(r);
    }
    if slice == [] {
      FilterMembers(slice, RiskTuning.NotGaining());
    } else {
      assert slice[0] in slice;
      if slice[0].signal == "BUY" {
        FilterNarrower(slice, RiskTuning.NotGaining(), Calibration.Lost());
      } else {
        FilterNarrower(slice, RiskTuning.Gaining(), Calibration.Lost());
      }
    }
  }

  /** What a boosted slice says about the rows it is taken from. */
  lemma {:induction false} BoostedSliceCounts(rows: seq<Outcome>, key: string)
    requires Signalled(rows) && Boostable(StrategyFeedback.SliceTrades(rows, key))
    ensures var g := |Filter(rows, RiskTuning.Gaining())|;
            var incorrect := |rows| - |Filter(rows, Won())|;
            g >= 18 && incorrect >= 1 && incorrect >= 30 - g
  {
    hide Filter, Tracked, Total, Gains, ProfitsCoverLosses;
    var slice := Filter(rows, StrategyFeedback.InSlice(key));
    FilterMembers(rows, StrategyFeedback.InSlice(key));
    StrategyFeedback.TradesFigures(slice);
    SliceHasLosses(slice);
    RiskTuning.GainsAndLosses(slice);
    forall r, q | r in slice && q in slice
      ensures r.signal == q.signal
    {
      LastOfKey(r);
      LastOfKey(q);
    }
    IncorrectOfSlice(slice);
    FilterOfFilter(rows, StrategyFeedback.InSlice(key), RiskTuning.Gaining());
    FilterOfFilter(rows, StrategyFeedback.InSlice(key), Calibration.Lost());
    FilterPartition(rows, Won(), Calibration.Lost());
  }

  /** Whichever engines fail, a BOOST over a negative sum needs these counts, on any tracked BUYs and SELLs. */
  lemma {:induction false} HiddenBoostNeeds(
    all: seq<Outcome>, lookbackDays: int, given: Option<Context>, digest: Digest, failures: Failures, report: Report)
    ensures var rows := RiskRows(all, report.context, lookbackDays);
            && Signalled(rows) && Produced(all, lookbackDays, given, digest, failures, report)
            && report.overall == Boost && SumBy(rows, Change()) < 0.0
            ==> CanHide(|rows|, |Filter(rows, Won())|, |Filter(rows, RiskTuning.Gaining())|)
  {
    hide Produced, Signalled, Filter, SumBy, RiskTuning.Expectancy, Boostable, RiskRows, Ratio;
    var rows := RiskRows(all, report.context, lookbackDays);
    BoostIsSafe(all, lookbackDays, given, digest, failures, report);
    if Signalled(rows) && Produced(all, lookbackDays, given, digest, failures, report)
       && report.overall == Boost && SumBy(rows, Change()) < 0.0 {
      var key :| key in Regimes.Keys(rows, StrategyFeedback.SliceKey)
                 && Boostable(StrategyFeedback.SliceTrades(rows, key));
      BoostedSliceCounts(rows, key);
      ShareAtLeast(|Filter(rows, Won())|, |rows|, 0.55, 11, 20);
      if |Filter(rows, Won())| <= |Filter(rows, RiskTuning.Gaining())| {
        HonestExpectancy(rows);
      }
    }
  }

  // ----- A record that shows every such choice of counts

  /** The sizes at which the record's own figures and those of its first slice earn a BOOST. */
  ghost predicate Boosts(k: Record) {
    && k.Valid() && k.fall < 4.0
    && k.falling >= 1 && k.buys + k.falling >= 30 && 5 * k.buys >= 3 * (k.buys + k.falling)
    && Times(k.buys as real, k.rise) >= 1.5 * Times(k.falling as real, k.fall)
    && 20 * k.Correct() >= 11 * k.Size()
    && Times(k.Correct() as real, k.rise)
       >= Times((k.falling + k.others) as real, Ratio(k.Loss(), k.sells + k.falling + k.others))
  }

  lemma BoostsMeans(k: Record)
    requires Boosts(k)
    ensures k.Valid() && k.buys > 0
  {
  }

  lemma CallInWindow(r: Outcome, i: nat, n: nat, end: int, lookbackDays: int)
    requires IsCall(r, i) && i < n && 7 * n <= 24 * lookbackDays
    ensures RowTimestamp(r) == Some(i * SPACING + HORIZON * HOUR)
    ensures i * SPACING + HORIZON * HOUR <= end <= n * SPACING ==> InWindow(end, lookbackDays)(r)
    ensures i * SPACING + HORIZON * HOUR <= n * SPACING
    ensures RiskTuning.Eligible()(r) && Calibration.Calibratable()(r)
  {
  }

  /** Every row of a record lies in the window of the context derived from it, if the window is long enough. */
  lemma RecordSelected(rows: seq<Outcome>, lookbackDays: int, digest: Digest)
    requires rows != [] && Consecutive(rows, 0) && 7 * |rows| <= 24 * lookbackDays
    ensures var ctx := StrategyFeedback.ContextOf(rows, lookbackDays, None, digest);
            RiskRows(rows, ctx, lookbackDays) == rows && CalibrationRows(rows, ctx, lookbackDays) == rows
  {
    hide IsCall, Filter, Newest, Serialise, RowTimestamp, InWindow, RiskTuning.Eligible, Calibration.Calibratable;
    NewestIsMaximum(rows);
    var n := |rows|;
    forall i | 0 <= i < n
      ensures RowTimestamp(rows[i]).Some? && RowTimestamp(rows[i]).value <= n * SPACING
      ensures RiskTuning.Eligible()(rows[i]) && Calibration.Calibratable()(rows[i])
    {
      CallInWindow(rows[i], i, n, 0, lookbackDays);
    }
    assert rows[0] in rows;
    var end := Newest(rows).value;
    forall i | 0 <= i < n
      ensures InWindow(end, lookbackDays)(rows[i])
    {
      assert rows[i] in rows;
      CallInWindow(rows[i], i, n, end, lookbackDays);
    }
    FilterAll(rows, RiskTuning.Eligible());
    FilterAll(rows, Calibration.Calibratable());
    FilterAll(rows, InWindow(end, lookbackDays));
  }

  lemma RecordDrawdown(k: Record)
    requires k.Valid() && k.fall < 4.0
    ensures var drawdown := RiskTuning.MaxDrawdown(k.Rows());
            drawdown.Some? ==> drawdown.value < 4.0
  {
    hide Record.RisingBuys, Record.FallingSells, Record.FallingBuys, Record.OtherBuys;
    RecordParts(k);
    RiskTuning.DrawdownIsMaximum(k.Rows());
  }

  lemma {:induction false} CountsDecide(rows: seq<Outcome>, n: nat, c: nat, g: nat, rise: real, loss: real)
    requires 0 < g && c <= n && 0 < n && Counted(rows, n, c, g) && 20 * c >= 11 * n
    requires RiskTuning.AverageWin(rows) == rise && RiskTuning.AverageLoss(rows) == loss
    requires Times(c as real, rise) >= Times((n - c) as real, loss)
    ensures RiskTuning.WinRate(rows) >= 0.55 && RiskTuning.Expectancy(rows) >= 0.0
  {
    hide Ratio, Times, Blend, Filter, RiskTuning.AverageWin, RiskTuning.AverageLoss;
    ShareAtLeast(c, n, 0.55, 11, 20);
    BlendSign(c, n, rise, loss);
  }

  lemma {:induction false} RecordAverages(k: Record)
    requires k.Valid() && k.buys > 0
    ensures RiskTuning.AverageWin(k.Rows()) == k.rise
    ensures RiskTuning.AverageLoss(k.Rows()) == Ratio(k.Loss(), k.sells + k.falling + k.others)
  {
    hide Record.Rows, Filter, SumBy, RiskTuning.GrossProfit, RiskTuning.GrossLoss, Ratio;
    RecordFigures(k);
    RatioOfMultiple(k.buys, k.rise);
  }

  lemma RecordLowRisk(k: Record)
    requires Boosts(k)
    ensures RiskTuning.Classify(RiskTuning.Aggregate(k.Rows()), false) == RiskTuning.Low
  {
    hide Record.Rows, Filter, SumBy, Ratio, Times, RiskTuning.WinRate, RiskTuning.Expectancy, RiskTuning.MaxDrawdown,
      RiskTuning.GrossProfit, RiskTuning.GrossLoss, RiskTuning.AverageWin, RiskTuning.AverageLoss, Record.Loss,
      RiskTuning.Classify;
    RecordAverages(k);
    RecordFigures(k);
    CountsDecide(k.Rows(), k.Size(), k.Correct(), k.buys, k.rise,
                 Ratio(k.Loss(), k.sells + k.falling + k.others));
    RecordDrawdown(k);
    RiskTuning.LevelMeaning(RiskTuning.Aggregate(k.Rows()).value, false);
  }

  // ----- Its calibration

  ghost predicate Sure(rows: seq<Outcome>, confidence: int, correct: bool) {
    forall r :: r in rows ==> r.confidence == Some(confidence) && r.correct == Some(correct)
  }

  lemma {:induction false} SureBucket(rows: seq<Outcome>, b: nat, confidence: int, correct: bool)
    requires rows != [] && Sure(rows, confidence, correct)
    ensures var bucket := Calibration.MakeBucket(b, Calibration.TallyOf(rows));
            && bucket.sampleSize == |rows| && bucket.predicted == confidence as real
            && bucket.realized == (if correct then 1.0 else 0.0)
  {
    hide Filter, SumBy, Ratio, Times;
    FilterUniform(rows, Won(), correct);
    FilterUniform(rows, Calibration.Lost(), !correct);
    SumOfSure(rows, confidence, correct);
    RatioOfMultiple(|rows|, confidence as real);
    RatioSelf(|rows|);
    RiskTuning.ZeroRatio(|rows|);
  }

  lemma SumOfSure(rows: seq<Outcome>, confidence: int, correct: bool)
    requires Sure(rows, confidence, correct)
    ensures SumBy(rows, Calibration.Confidence()) == Times(|rows| as real, confidence as real)
  {
    hide SumBy;
    SumUniform(rows, Calibration.Confidence(), confidence as real);
  }

  lemma NoBucket(b: nat)
    ensures Calibration.MakeBucket(b, Calibration.TallyOf([])).sampleSize == 0
  {
    hide Ratio;
  }

  lemma {:induction false} RecordSure(k: Record)
    requires k.Valid()
    ensures |k.Right()| == k.Correct() && Sure(k.Right(), 100, true)
    ensures |k.Wrong()| == k.falling + k.others && Sure(k.Wrong(), 0, false)
  {
    hide Record.RisingBuys, Record.FallingSells, Record.FallingBuys, Record.OtherBuys;
    RecordParts(k);
  }

  lemma RecordSplit(k: Record, b: nat)
    requires k.Valid() && b < 5
    ensures Filter(k.Rows(), Calibration.InBucket(b)) == if b == 0 then k.Wrong() else if b == 4 then k.Right() else []
  {
    hide Record.Right, Record.Wrong, Filter;
    RecordSure(k);
    var p := Calibration.InBucket(b);
    FilterConcat(k.Right(), k.Wrong(), p);
    FilterUniform(k.Right(), p, b == 4);
    FilterUniform(k.Wrong(), p, b == 0);
    assert [] + k.Wrong() == k.Wrong() && k.Right() + [] == k.Right();
  }

  lemma FirstAndLast(bucket: nat -> Calibration.Bucket)
    requires bucket(0).sampleSize > 0 && bucket(4).sampleSize > 0
    requires bucket(1).sampleSize == bucket(2).sampleSize == bucket(3).sampleSize == 0
    ensures Calibration.Populated(bucket, 5) == [bucket(0), bucket(4)]
  {
    assert Calibration.Populated(bucket, 1) == [bucket(0)];
    assert Calibration.Populated(bucket, 2) == [bucket(0)];
    assert Calibration.Populated(bucket, 3) == [bucket(0)];
    assert Calibration.Populated(bucket, 4) == [bucket(0)];
  }

  /** A record of sure calls that were right and doubtful ones that were wrong is well calibrated. */
  lemma {:induction false} RecordCalibrated(k: Record, evaluatedAt: int)
    requires k.Valid() && k.Correct() > 0 && k.falling + k.others > 0
    ensures var c := Calibration.Calibrate(evaluatedAt, k.Rows());
            c.wellCalibrated && !c.overconfidence
  {
    hide Record.Rows, Record.Right, Record.Wrong, Filter, Ratio, Sure, Calibration.MakeBucket, Calibration.TallyOf,
      Calibration.Populated, LeastSquares.Slope;
    var bucket := Calibration.BucketsOf(k.Rows());
    forall b: nat | 0 < b < 4
      ensures bucket(b).sampleSize == 0
    {
      RecordSplit(k, b);
      NoBucket(b);
    }
    RecordSplit(k, 0);
    RecordSplit(k, 4);
    RecordSure(k);
    SureBucket(k.Wrong(), 0, 0, false);
    SureBucket(k.Right(), 4, 100, true);
    FirstAndLast(bucket);
    Calibration.MonotoneCalibrationSlope(evaluatedAt, k.Rows());
    Calibration.WellCalibratedExactlyWhen(evaluatedAt, k.Rows());
  }

  // ----- Its slices

  const BUYS: string := "BTC/USDT|1h|trend|BUY"
  const SELLS: string := "BTC/USDT|1h|trend|SELL"
  const OTHERS: string := "ETH/USDT|1h|trend|BUY"

  lemma KeysDiffer()
    ensures BUYS != SELLS && BUYS != OTHERS && SELLS != OTHERS
  {
    assert |BUYS| == |OTHERS| == 21 && |SELLS| == 22;
    assert BUYS[0] != OTHERS[0];
  }

  lemma KeyOfCalls(rows: seq<Outcome>, symbol: string, signal: string, confidence: int, change: real)
    requires Alike(rows, symbol, signal, confidence, change)
    ensures forall r :: r in rows ==> StrategyFeedback.SliceKey(r) == symbol + "|" + "1h" + "|" + "trend" + "|" + signal
  {
  }

  lemma {:induction false} RecordKeys(k: Record)
    requires k.Valid()
    ensures forall r :: r in k.RisingBuys() || r in k.FallingBuys() ==> StrategyFeedback.SliceKey(r) == BUYS
    ensures forall r :: r in k.FallingSells() ==> StrategyFeedback.SliceKey(r) == SELLS
    ensures forall r :: r in k.OtherBuys() ==> StrategyFeedback.SliceKey(r) == OTHERS
  {
    hide Record.RisingBuys, Record.FallingSells, Record.FallingBuys, Record.OtherBuys, Alike, StrategyFeedback.SliceKey;
    RecordParts(k);
    KeyOfCalls(k.RisingBuys(), "BTC/USDT", "BUY", 100, k.rise);
    KeyOfCalls(k.FallingSells(), "BTC/USDT", "SELL", 100, -k.sellFall);
    KeyOfCalls(k.FallingBuys(), "BTC/USDT", "BUY", 0, -k.fall);
    KeyOfCalls(k.OtherBuys(), "ETH/USDT", "BUY", 0, -k.fall);
    assert "BTC/USDT" + "|" + "1h" + "|" + "trend" + "|" + "BUY" == BUYS;
    assert "BTC/USDT" + "|" + "1h" + "|" + "trend" + "|" + "SELL" == SELLS;
    assert "ETH/USDT" + "|" + "1h" + "|" + "trend" + "|" + "BUY" == OTHERS;
  }

  /** The slices of BUYs and of SELLs in the record's first market. */
  lemma {:induction false} RecordSlices(k: Record)
    requires k.Valid()
    ensures Filter(k.Rows(), StrategyFeedback.InSlice(BUYS)) == k.RisingBuys() + k.FallingBuys()
    ensures Filter(k.Rows(), StrategyFeedback.InSlice(SELLS)) == k.FallingSells()
  {
    hide Record.RisingBuys, Record.FallingSells, Record.FallingBuys, Record.OtherBuys, Filter,
      StrategyFeedback.SliceKey;
    RecordKeys(k);
    KeysDiffer();
    FourFiltered(k, StrategyFeedback.InSlice(BUYS), true, false, true, false);
    FourFiltered(k, StrategyFeedback.InSlice(SELLS), false, true, false, false);
    assert k.RisingBuys() + [] + (k.FallingBuys() + []) == k.RisingBuys() + k.FallingBuys();
    assert [] + k.FallingSells() + ([] + []) == k.FallingSells();
  }

  lemma FourFiltered(k: Record, p: Outcome -> bool, a: bool, b: bool, c: bool, d: bool)
    requires forall r :: r in k.RisingBuys() ==> p(r) == a
    requires forall r :: r in k.FallingSells() ==> p(r) == b
    requires forall r :: r in k.FallingBuys() ==> p(r) == c
    requires forall r :: r in k.OtherBuys() ==> p(r) == d
    ensures Filter(k.Rows(), p)
         == (if a then k.RisingBuys() else []) + (if b then k.FallingSells() else [])
            + ((if c then k.FallingBuys() else []) + (if d then k.OtherBuys() else []))
  {
    hide Record.RisingBuys, Record.FallingSells, Record.FallingBuys, Record.OtherBuys, Filter;
    FilterConcat(k.Right(), k.Wrong(), p);
    FilterConcat(k.RisingBuys(), k.FallingSells(), p);
    FilterConcat(k.FallingBuys(), k.OtherBuys(), p);
    FilterUniform(k.RisingBuys(), p, a);
    FilterUniform(k.FallingSells(), p, b);
    FilterUniform(k.FallingBuys(), p, c);
    FilterUniform(k.OtherBuys(), p, d);
  }

  lemma {:induction false} BuysBoostable(k: Record)
    requires Boosts(k)
    ensures Boostable(Regimes.TradesOf(k.RisingBuys() + k.FallingBuys()))
  {
    hide Record.RisingBuys, Record.FallingSells, Record.FallingBuys, Record.OtherBuys, Filter, SumBy, StatsOf, Alike,
      RiskTuning.GrossLoss, Boosts, Boostable, Moved, Consecutive, Regimes.TradesOf;
    var a, c := k.RisingBuys(), k.FallingBuys();
    var buys := a + c;
    BoostsMeans(k);
    RecordParts(k);
    NoneMoved("SELL", -1.0);
    AlikeMoved(a, "BTC/USDT", "BUY", 100, k.rise);
    AlikeMoved(c, "BTC/USDT", "BUY", 0, -k.fall);
    KindsFigures(a, k.rise, [], 1.0, c, k.fall);
    assert a + [] + c == buys;
    StrategyFeedback.TradesFigures(buys);
    EarnsBoost(Regimes.TradesOf(buys), k);
  }

  lemma NoneMoved(signal: string, change: real)
    ensures Moved([], signal, change)
  {
  }

  lemma EarnsBoost(trades: seq<Trade>, k: Record)
    requires Boosts(k) && |trades| == k.buys + k.falling && Gains(trades) == k.buys
    requires Total(trades) == Times(k.buys as real, k.rise) - Times(k.falling as real, k.fall)
    requires SumBy(Filter(trades, IsGain()), Return()) == Times(k.buys as real, k.rise)
    ensures Boostable(trades)
  {
    hide StatsOf, Gains, Total, Filter, SumBy, Ratio, Times, Record.Loss;
    GrossProfitIsGains(trades);
    NetIsTotal(trades);
    GrossLossMeaning(trades);
    ProductPositive(k.falling as real, k.fall);
  }

  // ----- The condition is exact

  /** Every failure-free evaluation of such a record over a window long enough for it is a BOOST on all of its rows. */
  lemma {:induction false} RecordBoosts(k: Record, lookbackDays: int, digest: Digest, report: Report)
    requires 7 * k.Size() <= 24 * lookbackDays
    ensures Boosts(k)
            && Produced(k.Rows(), lookbackDays, None, digest, Failures(false, false, false, false), report) ==>
      report.overall == Boost && RiskRows(k.Rows(), report.context, lookbackDays) == k.Rows()
  {
    hide Record.Rows, Filter, SumBy, RiskTuning.Aggregate, RiskTuning.Classify, Calibration.Calibrate,
      StrategyFeedback.ContextOf, StrategyFeedback.Figures, StrategyFeedback.Earning, StrategyFeedback.SliceTrades,
      Regimes.TradesOf, Regimes.IsReport, Regimes.Keys, Boostable, RiskTuning.Selected, Calibration.Selected, IsCall,
      Ratio, Times;
    if Boosts(k)
       && Produced(k.Rows(), lookbackDays, None, digest, Failures(false, false, false, false), report) {
      RecordSize(k);
      RecordSelected(k.Rows(), lookbackDays, digest);
      RecordLowRisk(k);
      RecordCalibrated(k, report.context.timestamp);
      BuysAreSliced(k);
      BuysBoostable(k);
      StrategyFeedback.TopPerformersExactlyWhen(k.Rows(), report.context);
      assert Boostable(StrategyFeedback.SliceTrades(k.Rows(), BUYS));
      OverallMeaning(RiskTuning.Aggregate(k.Rows()), report.strategy, report.calibration);
    }
  }

  lemma RecordSize(k: Record)
    requires k.Valid()
    ensures |k.Rows()| == k.Size() && Consecutive(k.Rows(), 0)
  {
    RecordParts(k);
  }

  lemma {:induction false} BuysAreSliced(k: Record)
    requires k.Valid() && k.falling > 0
    ensures BUYS in Regimes.Keys(k.Rows(), StrategyFeedback.SliceKey)
    ensures StrategyFeedback.SliceTrades(k.Rows(), BUYS) == Regimes.TradesOf(k.RisingBuys() + k.FallingBuys())
  {
    hide Record.RisingBuys, Record.FallingSells, Record.FallingBuys, Record.OtherBuys, Filter, Alike, Consecutive,
      StrategyFeedback.SliceKey, Regimes.TradesOf;
    RecordParts(k);
    RecordKeys(k);
    RecordSlices(k);
    var r := k.FallingBuys()[0];
    assert r in k.Rows();
  }

  /** A quotient, and how it compares with its dividend. */
  lemma Divided(total: real, parts: nat) returns (part: real)
    requires parts > 0 && total > 0.0
    ensures Times(parts as real, part) == total && 0.0 < part <= total
  {
    part := total / parts as real;
    Inverted(total, parts as real);
    ProductGrows(1, parts, part);
  }

  lemma Inverted(total: real, parts: real)
    requires parts > 0.0 && total > 0.0
    ensures Times(parts, total / parts) == total && total / parts > 0.0
  {
  }

  lemma ProductGrows(a: nat, b: nat, v: real)
    requires a <= b && v > 0.0
    ensures Times(a as real, v) <= Times(b as real, v)
    ensures Times(1.0, v) == v
  {
    if a < b {
      ProductOrder(a as real, b as real, v);
    }
  }

  /** Between the points where the expectancy and where the sum break even there is room for a record of any such
      counts: `loss` is the average of its losses. */
  lemma BoostingRecord(n: nat, c: nat, g: nat, rise: real, loss: real) returns (k: Record)
    requires c <= n && CanHide(n, c, g)
    requires 0.0 < rise < 1.0 && 0.0 < loss && Times(n as real, loss) < 1.0
    requires Times(c as real, rise) >= Times((n - c) as real, loss)
    requires Times(g as real, rise) < Times((n - g) as real, loss)
    ensures Boosts(k) && k.Size() == n && k.Correct() == c && k.buys == g
    ensures Times(k.buys as real, k.rise) < k.Loss()
  {
    hide Ratio, Times;
    var fall := Divided(rise, n);
    ProductGrows(n - c, n, fall);
    ProductGrows(1, g, rise);
    var total := Times((n - g) as real, loss);
    var sellFall := Divided(total - Times((n - c) as real, fall), c - g);
    ProductGrows(n - g, n, loss);
    ProductGrows(0, n - c, fall);
    ZeroTimes(fall);
    var falling := if g >= 29 then 1 else 30 - g;
    k := Record(g, rise, c - g, sellFall, falling, n - c - falling, fall);
    assert k.Loss() == total;
    RatioOfMultiple(n - g, loss);
    ProductGrows(falling, n, fall);
    ProductGrows(2, g, rise);
    TwiceTimes(rise);
  }

  lemma ZeroTimes(v: real)
    ensures Times(0.0, v) == 0.0
  {
  }

  lemma TwiceTimes(v: real)
    ensures Times(2.0, v) == v + v
  {
  }

  /** A failure-free BOOST can hide a negative sum of price changes of real rows exactly for these counts: more correct
      rows than gaining ones, at least 18 of those, at least one incorrect row and enough of them to fill a slice of
      thirty, and a share of correct rows of 55 percent. */
  lemma {:induction false} HiddenBoostExactlyWhen(n: nat, correct: nat, gaining: nat, digest: Digest)
    requires correct <= n && gaining <= n
    ensures (exists all: seq<Outcome>, lookbackDays: int, given: Option<Context>, report: Report ::
               HiddenBoost(all, lookbackDays, given, digest, report, n, correct, gaining))
       <==> CanHide(n, correct, gaining)
  {
    hide HiddenBoost, CanHide;
    if CanHide(n, correct, gaining) {
      var all, report := HidingTable(n, correct, gaining, n, digest);
    }
    forall all: seq<Outcome>, lookbackDays: int, given: Option<Context>, report: Report
      | HiddenBoost(all, lookbackDays, given, digest, report, n, correct, gaining)
      ensures CanHide(n, correct, gaining)
    {
      HiddenBoostCounts(all, lookbackDays, given, digest, report, n, correct, gaining);
    }
  }

  lemma {:induction false} HiddenBoostCounts(
    all: seq<Outcome>, lookbackDays: int, given: Option<Context>, digest: Digest, report: Report, n: nat,
    correct: nat, gaining: nat)
    requires HiddenBoost(all, lookbackDays, given, digest, report, n, correct, gaining)
    ensures CanHide(n, correct, gaining)
  {
    hide Produced, Filter, SumBy, Real, Tracked, CanHide;
    var rows := RiskRows(all, report.context, lookbackDays);
    RealRowsAreWritten(all);
    FilterMembers(all, RiskTuning.Eligible());
    FilterMembers(Filter(all, RiskTuning.Eligible()), InWindow(report.context.timestamp, lookbackDays));
    assert Signalled(rows);
    HiddenBoostNeeds(all, lookbackDays, given, digest, Failures(false, false, false, false), report);
  }

  lemma HidingSizes(n: nat, c: nat, g: nat, up: real, down: real) returns (rise: real, loss: real)
    requires 0 < n && c <= n && g <= n && up > 0.0 && down > 0.0
    requires Times(c as real, up) >= Times((n - c) as real, down)
    requires Times(g as real, up) < Times((n - g) as real, down)
    ensures 0.0 < rise < 1.0 && 0.0 < loss && Times(n as real, loss) < 1.0
    ensures Times(c as real, rise) >= Times((n - c) as real, loss)
    ensures Times(g as real, rise) < Times((n - g) as real, loss)
  {
    hide Times;
    ProductPositive(n as real, down);
    var whole := Times(n as real, down);
    var t := ScaleBelowOne(up, whole);
    ScaledOrders(n, c, g, up, down, t);
    ScaledTimes(n as real, down, whole, t);
    rise, loss := up * t, down * t;
  }

  lemma ScaledTimes(n: real, v: real, whole: real, t: real)
    requires v > 0.0 && t > 0.0 && whole == Times(n, v) && whole * t < 1.0
    ensures Times(n, v * t) < 1.0 && v * t > 0.0
  {
    assert Times(n, v * t) == whole * t;
  }

  /** The failure-free evaluation up to the regime report, of which the choice among equal regimes is open. */
  ghost function Evaluated(all: seq<Outcome>, lookbackDays: int, digest: Digest, regime: Regimes.Report): Report {
    var strategy := StrategyFeedback.FeedbackOn(all, lookbackDays, None, digest);
    var ctx := StrategyFeedback.ContextOf(all, lookbackDays, None, digest);
    var calibration := Calibration.Calibrate(ctx.timestamp, CalibrationRows(all, ctx, lookbackDays));
    var risk := RiskTuning.Tune(RiskTuning.Aggregate(RiskRows(all, ctx, lookbackDays)), strategy,
                                calibration.overconfidence, calibration.threshold);
    Report(strategy, calibration, regime, risk, DeriveOverall(strategy, calibration, risk), ctx)
  }

  lemma {:induction false} EvaluatedProduced(
    all: seq<Outcome>, lookbackDays: int, digest: Digest, regime: Regimes.Report)
    requires Regimes.IsReport(all, lookbackDays,
                              Some(StrategyFeedback.ContextOf(all, lookbackDays, None, digest)), digest, regime)
    ensures Produced(all, lookbackDays, None, digest, Failures(false, false, false, false),
                     Evaluated(all, lookbackDays, digest, regime))
  {
    hide Filter, RiskTuning.Tune, RiskTuning.Aggregate, Calibration.Calibrate, Regimes.IsReport, DeriveOverall,
      StrategyFeedback.FeedbackOn, StrategyFeedback.ContextOf, CalibrationRows, RiskRows;
  }

  /** Such counts are hidden over every lookback of seven hours a row or more. */
  lemma {:induction false} HidingTable(n: nat, correct: nat, gaining: nat, lookbackDays: int, digest: Digest)
    returns (all: seq<Outcome>, report: Report)
    requires correct <= n && CanHide(n, correct, gaining) && 7 * n <= 24 * lookbackDays
    ensures HiddenBoost(all, lookbackDays, None, digest, report, n, correct, gaining)
  {
    hide Record.Rows, Produced, Counted, Filter, SumBy, Times, Real, Ratio, RiskRows;
    var up, down := correct * (n - gaining) + gaining * (n - correct), 2 * correct * gaining;
    SizesPositive(n, correct, gaining);
    Between(n, correct, gaining, up, down);
    var rise, loss := HidingSizes(n, correct, gaining, up as real, down as real);
    var k := BoostingRecord(n, correct, gaining, rise, loss);
    all := k.Rows();
    var ctx := StrategyFeedback.ContextOf(all, lookbackDays, None, digest);
    var regime := Regimes.SomeReport(all, lookbackDays, Some(ctx), digest);
    report := Evaluated(all, lookbackDays, digest, regime);
    EvaluatedProduced(all, lookbackDays, digest, regime);
    RecordSize(k);
    RecordIsReal(all);
    RecordFigures(k);
    RecordBoosts(k, lookbackDays, digest, report);
  }

  // ----- A BOOST against a disabled half

  /** Twenty BUYs that rose by 1, ten that fell by 1, and twenty SELLs that fell by 2. */
  const SELL_HEAVY: Record := Record(20, 1.0, 20, 2.0, 10, 0, 1.0)

  /** Correct SELLs are disabled although they were right. */
  lemma {:induction false} SellsDisabled(k: Record)
    requires k.Valid() && k.sells >= 20 && k.sellFall > 0.1
    ensures Verdict(StatsOf(Regimes.TradesOf(k.FallingSells()))) == Disable
  {
    hide Record.FallingSells, Calls, Filter, SumBy, StatsOf, Verdict;
    var b := k.FallingSells();
    RecordParts(k);
    StrategyFeedback.TradesFigures(b);
    AlikeMoved(b, "BTC/USDT", "SELL", 100, -k.sellFall);
    MovedMeans(b, "SELL", -k.sellFall);
    SumUniform(b, Change(), -k.sellFall);
    LargerFall(k.sells, k.sellFall, SumBy(b, Change()));
    StrategyFeedback.CorrectSellsAreLosses(b);
  }

  lemma LargerFall(n: nat, fall: real, total: real)
    requires n > 0 && fall > 0.1 && total == n as real * -fall
    ensures total < -0.1 * n as real
  {
    ProductOrder(0.1, fall, n as real);
  }

  /** The strategy engine on a record in one market: its BUYs are boosted and its correct SELLs disabled. */
  lemma {:induction false} RecordFeedback(k: Record, ctx: Context)
    requires Boosts(k) && k.others == 0 && k.sells >= 20 && k.sellFall > 0.1
    ensures StrategyFeedback.Feedback(k.Rows(), ctx) == RiskTuning.Strategy(k.Size(), 2, 0, 1, 1, Some(ctx))
  {
    hide Record.Rows, Boosts, Boostable, Filter, StatsOf, Verdict, StrategyFeedback.SliceKey, Regimes.TradesOf;
    BoostsMeans(k);
    RecordSize(k);
    TwoKeys(k);
    KeysDiffer();
    RecordSlices(k);
    BuysBoostable(k);
    SellsDisabled(k);
    VerdictExactlyWhen(Regimes.TradesOf(k.RisingBuys() + k.FallingBuys()));
    var figures := StrategyFeedback.Figures(k.Rows());
    assert figures.Keys == {BUYS, SELLS};
    assert StrategyFeedback.Earning(figures, Boost) == {BUYS};
    assert StrategyFeedback.Earning(figures, Disable) == {SELLS};
    assert StrategyFeedback.Earning(figures, Throttle) == {};
  }

  lemma {:induction false} TwoKeys(k: Record)
    requires k.Valid() && k.others == 0 && k.buys > 0 && k.sells > 0
    ensures Regimes.Keys(k.Rows(), StrategyFeedback.SliceKey) == {BUYS, SELLS}
  {
    hide Record.RisingBuys, Record.FallingSells, Record.FallingBuys, Record.OtherBuys, StrategyFeedback.SliceKey,
      Alike, Consecutive;
    RecordParts(k);
    RecordKeys(k);
    assert k.OtherBuys() == [];
    assert k.RisingBuys()[0] in k.Rows() && k.FallingSells()[0] in k.Rows();
    forall r | r in k.Rows()
      ensures StrategyFeedback.SliceKey(r) in {BUYS, SELLS}
    {
      assert r in k.RisingBuys() || r in k.FallingSells() || r in k.FallingBuys();
    }
  }

  /** Every failure-free evaluation of that record, which the tracker can write, is a BOOST although its price changes
      sum to -30, one of its two slices asks for DISABLE, and disabling is recommended. */
  lemma {:induction false} BoostOnFallingPrices(digest: Digest, report: Report)
    ensures Real(SELL_HEAVY.Rows()) && SumBy(SELL_HEAVY.Rows(), Change()) == -30.0
    ensures Produced(SELL_HEAVY.Rows(), 30, None, digest, Failures(false, false, false, false), report) ==>
      && report.overall == Boost
      && RiskRows(SELL_HEAVY.Rows(), report.context, 30) == SELL_HEAVY.Rows()
      && report.strategy.slices == 2 && report.strategy.disabled == 1 && report.risk.disable
  {
    hide Record.Rows, Real, Filter, SumBy, RiskTuning.Aggregate, RiskTuning.Classify, Calibration.Calibrate, Boosts,
      Calibration.Selected, StrategyFeedback.Feedback, StrategyFeedback.ContextOf, Regimes.IsReport, Consecutive;
    SellHeavyBoosts();
    RecordSize(SELL_HEAVY);
    RecordIsReal(SELL_HEAVY.Rows());
    RecordFigures(SELL_HEAVY);
    RecordBoosts(SELL_HEAVY, 30, digest, report);
    RecordFeedback(SELL_HEAVY, report.context);
    HalfShare(1, 2);
  }

  lemma SellHeavyBoosts()
    ensures Boosts(SELL_HEAVY)
  {
    assert SELL_HEAVY.Loss() == 50.0 && Ratio(50.0, 30) == 50.0 / 30.0;
  }
}
