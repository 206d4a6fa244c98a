/** Recent aggregates, the risk level they imply, and the throttle and disable flags. */
module RiskTuning {
  import opened Lists
  import opened Outcomes
  import opened Performance

  datatype Level = Low | Moderate | High | Critical
  {
    function Rank(): nat {
      match this
      case Low => 0
      case Moderate => 1
      case High => 2
      case Critical => 3
    }
  }

  function LevelOf(rank: nat): Level {
    if rank == 0 then Low else if rank == 1 then Moderate else if rank == 2 then High else Critical
  }

  function Eligible(): Outcome -> bool {
    (r: Outcome) => r.correct.Some? && r.priceChange.Some?
  }

  function Selected(all: seq<Outcome>, ctx: Context, lookbackDays: int): seq<Outcome> {
    Window(Filter(all, Eligible()), ctx, lookbackDays)
  }

  function Gaining(): Outcome -> bool {
    (r: Outcome) => Change()(r) > 0.0
  }

  function Losing(): Outcome -> bool {
    (r: Outcome) => Change()(r) < 0.0
  }

  function NotGaining(): Outcome -> bool {
    (r: Outcome) => Change()(r) <= 0.0
  }

  function GrossProfit(rows: seq<Outcome>): real {
    SumBy(Filter(rows, Gaining()), Change())
  }

  function GrossLoss(rows: seq<Outcome>): real {
    Abs(SumBy(Filter(rows, Losing()), Change()))
  }

  function AverageWin(rows: seq<Outcome>): real {
    Ratio(GrossProfit(rows), |Filter(rows, Gaining())|)
  }

  function AverageLoss(rows: seq<Outcome>): real {
    Ratio(GrossLoss(rows), |Filter(rows, NotGaining())|)
  }

  function WinRate(rows: seq<Outcome>): real {
    Ratio(|Filter(rows, Won())| as real, |rows|)
  }

  function Expectancy(rows: seq<Outcome>): real {
    Blend(WinRate(rows), AverageWin(rows), AverageLoss(rows))
  }

  function LargerOf(a: Option<real>, b: real): Option<real> {
    if a.Some? && a.value >= b then a else Some(b)
  }

  /** The largest adverse excursion on record, if any row carries one. */
  function MaxDrawdown(rows: seq<Outcome>): Option<real> {
    if rows == [] then None
    else
      var r := rows[|rows| - 1];
      var rest := MaxDrawdown(rows[..|rows| - 1]);
      if r.maxAdverse.Some? then LargerOf(rest, Abs(r.maxAdverse.value)) else rest
  }

  datatype Aggregates = Aggregates(winRate: real, expectancy: real, profitFactor: Option<real>,
      maxDrawdown: Option<real>)

  function Aggregate(rows: seq<Outcome>): Option<Aggregates> {
    if rows == [] then None
    else Some(Aggregates(WinRate(rows), Expectancy(rows),
                         if GrossLoss(rows) > 0.0 then Some(GrossProfit(rows) / GrossLoss(rows)) else None,
                         MaxDrawdown(rows)))
  }

  // ----- Risk classification

  function WinRateRisk(winRate: real): Level {
    if winRate < 0.35 then Critical else if winRate < 0.45 then High else if winRate < 0.55 then Moderate else Low
  }

  function ExpectancyRisk(expectancy: real): Level {
    if expectancy < -0.30 then Critical else if expectancy < -0.10 then High else if expectancy < 0.0 then Moderate
    else Low
  }

  function DrawdownRisk(drawdown: real): Level {
    if drawdown >= 15.0 then Critical else if drawdown >= 8.0 then High else if drawdown >= 4.0 then Moderate else Low
  }

  function Worse(a: Level, b: Level): Level {
    if a.Rank() >= b.Rank() then a else b
  }

  function Classify(agg: Option<Aggregates>, overconfidence: bool): Level {
    match agg
    case None => Moderate
    case Some(a) =>
      var drawdown := if a.maxDrawdown.Some? then a.maxDrawdown.value else 0.0;
      var worst := Worse(Worse(WinRateRisk(a.winRate), ExpectancyRisk(a.expectancy)), DrawdownRisk(drawdown));
      if overconfidence && worst != Critical then LevelOf(worst.Rank() + 1) else worst
  }

  function SizeMultiplier(level: Level): real {
    match level
    case Low => 1.0
    case Moderate => 0.75
    case High => 0.50
    case Critical => 0.25
  }

  function MinConfidence(level: Level): int {
    match level
    case Low => 55
    case Moderate => 60
    case High => 65
    case Critical => 75
  }

  /** The strategy engine's result, as the tuner and the orchestrator read it. */
  datatype Strategy = Strategy(
    totalOutcomes: nat, slices: nat, throttled: nat, disabled: nat, topPerformers: nat, context: Option<Context>)

  datatype Risk = Risk(
    aggregates: Option<Aggregates>, level: Level, multiplier: real, minConfidence: int, throttle: bool, disable: bool)

  function AtLeastOne(n: nat): nat {
    if n == 0 then 1 else n
  }

  function Tune(agg: Option<Aggregates>, strategy: Strategy, overconfidence: bool, recommendedMin: Option<int>): Risk {
    var level := Classify(agg, overconfidence);
    var base := MinConfidence(level);
    var minConfidence := if recommendedMin.Some? && recommendedMin.value > base then recommendedMin.value else base;
    var disablePct := Ratio(strategy.disabled as real, AtLeastOne(strategy.slices));
    var throttlePct := Ratio((strategy.throttled + strategy.disabled) as real, AtLeastOne(strategy.slices));
    Risk(agg, level, SizeMultiplier(level), minConfidence,
         level == High || level == Critical || throttlePct >= 0.50,
         level == Critical || disablePct >= 0.50)
  }

  // ----- Expectancy here against the mean return

  /** Sums over gaining and losing rows make up the total; sizes likewise. */
  lemma {:induction false} GainsAndLosses(rows: seq<Outcome>)
    ensures SumBy(Filter(rows, Gaining()), Change()) + SumBy(Filter(rows, Losing()), Change()) == SumBy(rows, Change())
    ensures |Filter(rows, Gaining())| + |Filter(rows, NotGaining())| == |rows|
    ensures SumBy(Filter(rows, Losing()), Change()) <= 0.0
    ensures SumBy(Filter(rows, Gaining()), Change()) >= 0.0
    ensures |Filter(rows, Losing())| <= |Filter(rows, NotGaining())|
    ensures Filter(rows, Gaining()) != [] ==> SumBy(Filter(rows, Gaining()), Change()) > 0.0
    ensures Filter(rows, Losing()) != [] ==> SumBy(Filter(rows, Losing()), Change()) < 0.0
  {
    if rows != [] {
      var m := |rows| - 1;
      GainsAndLosses(rows[..m]);
      SumSnoc(Filter(rows[..m], Gaining()), rows[m], Change());
      SumSnoc(Filter(rows[..m], Losing()), rows[m], Change());
    }
  }

  lemma {:induction false} AllFlat(rows: seq<Outcome>)
    ensures Filter(rows, Gaining()) == [] && Filter(rows, Losing()) == [] <==> forall r :: r in rows ==>
          Change()(r) == 0.0
  {
    if rows != [] {
      var m := |rows| - 1;
      AllFlat(rows[..m]);
      assert rows == rows[..m] + [rows[m]];
    }
  }

  lemma BlendShift(w: real, v: real, win: real, loss: real)
    ensures Blend(w, win, loss) - Blend(v, win, loss) == Times(w - v, win + loss)
  {
  }

  lemma ZeroProduct(u: real, v: real)
    ensures Times(u, v) == 0.0 <==> u == 0.0 || v == 0.0
  {
  }

  lemma RatioEqual(a: nat, b: nat, n: nat)
    requires n > 0
    ensures Ratio(a as real, n) == Ratio(b as real, n) <==> a == b
  {
    QuotientOrder(a as real, b as real, n as real);
    QuotientOrder(b as real, a as real, n as real);
  }

  /** The averages are both zero exactly when every return is zero. */
  lemma AveragesVanish(rows: seq<Outcome>)
    ensures AverageWin(rows) >= 0.0 && AverageLoss(rows) >= 0.0
    ensures AverageWin(rows) + AverageLoss(rows) == 0.0 <==> forall r :: r in rows ==> Change()(r) == 0.0
  {
    hide Ratio;
    GainsAndLosses(rows);
    AllFlat(rows);
    RatioNonNegative(GrossProfit(rows), |Filter(rows, Gaining())|);
    RatioNonNegative(GrossLoss(rows), |Filter(rows, NotGaining())|);
    if Filter(rows, Gaining()) == [] {
      assert GrossProfit(rows) == 0.0;
      ZeroRatio(|Filter(rows, Gaining())|);
    }
    if Filter(rows, Losing()) == [] {
      assert GrossLoss(rows) == 0.0;
      ZeroRatio(|Filter(rows, NotGaining())|);
    }
  }

  lemma ZeroRatio(n: nat)
    ensures Ratio(0.0, n) == 0.0
  {
  }

  lemma GrossFigures(rows: seq<Outcome>)
    ensures GrossProfit(rows) - GrossLoss(rows) == SumBy(rows, Change())
    ensures |Filter(rows, Gaining())| + |Filter(rows, NotGaining())| == |rows|
    ensures |Filter(rows, Gaining())| == 0 ==> GrossProfit(rows) == 0.0
    ensures |Filter(rows, NotGaining())| == 0 ==> GrossLoss(rows) == 0.0
  {
    GainsAndLosses(rows);
  }

  /** Weighting by the share of gaining rows instead would give the mean return. */
  lemma {:induction false} BlendByGainsIsMean(rows: seq<Outcome>)
    requires rows != []
    ensures Blend(Ratio(|Filter(rows, Gaining())| as real, |rows|), AverageWin(rows), AverageLoss(rows))
         == Ratio(SumBy(rows, Change()), |rows|)
  {
    hide Ratio, Blend, GrossProfit, GrossLoss;
    GrossFigures(rows);
    BlendIsMean(GrossProfit(rows), GrossLoss(rows), |Filter(rows, Gaining())|, |Filter(rows, NotGaining())|);
  }

  /** The tuner's expectancy weighs by correct predictions, so it is the mean return only when
      as many rows are correct as are gaining, or every return is zero. */
  lemma {:induction false} ExpectancyIsMeanExactlyWhen(rows: seq<Outcome>)
    requires rows != []
    ensures Expectancy(rows) == Ratio(SumBy(rows, Change()), |rows|)
      <==> |Filter(rows, Won())| == |Filter(rows, Gaining())| || forall r :: r in rows ==> Change()(r) == 0.0
  {
    hide Ratio, Blend, Times, AverageWin, AverageLoss, GrossProfit, GrossLoss;
    var share := Ratio(|Filter(rows, Gaining())| as real, |rows|);
    BlendByGainsIsMean(rows);
    BlendShift(WinRate(rows), share, AverageWin(rows), AverageLoss(rows));
    ZeroProduct(WinRate(rows) - share, AverageWin(rows) + AverageLoss(rows));
    RatioEqual(|Filter(rows, Won())|, |Filter(rows, Gaining())|, |rows|);
    AveragesVanish(rows);
  }

  // ----- Order and window

  /** No row's adverse excursion exceeds the reported drawdown. */
  lemma {:induction false} DrawdownIsMaximum(rows: seq<Outcome>)
    ensures MaxDrawdown(rows).None? <==> forall r :: r in rows ==> r.maxAdverse.None?
    ensures forall r :: r in rows && r.maxAdverse.Some? ==>
          MaxDrawdown(rows).Some? && Abs(r.maxAdverse.value) <= MaxDrawdown(rows).value
    ensures MaxDrawdown(rows).Some?
        ==> exists r :: r in rows && r.maxAdverse.Some? && Abs(r.maxAdverse.value) == MaxDrawdown(rows).value
  {
    if rows != [] {
      var m := |rows| - 1;
      DrawdownIsMaximum(rows[..m]);
      assert rows == rows[..m] + [rows[m]];
      assert rows[m] in rows;
    }
  }

  /** The aggregates ignore the order of the rows. */
  lemma AggregatesIgnoreRowOrder(s: seq<Outcome>, t: seq<Outcome>)
    requires multiset(s) == multiset(t)
    ensures Aggregate(s) == Aggregate(t)
  {
    hide Ratio, Blend, MaxDrawdown, Filter, SumBy;
    FilterPermutation(s, t, Gaining());
    FilterPermutation(s, t, Losing());
    FilterPermutation(s, t, NotGaining());
    FilterPermutation(s, t, Won());
    SumPermutation(Filter(s, Gaining()), Filter(t, Gaining()), Change());
    SumPermutation(Filter(s, Losing()), Filter(t, Losing()), Change());
    SameMembers(s, t);
    DrawdownIgnoresOrder(s, t);
    assert GrossProfit(s) == GrossProfit(t) && GrossLoss(s) == GrossLoss(t);
    assert AverageWin(s) == AverageWin(t) && AverageLoss(s) == AverageLoss(t);
  }

  lemma DrawdownIgnoresOrder(s: seq<Outcome>, t: seq<Outcome>)
    requires multiset(s) == multiset(t)
    ensures MaxDrawdown(s) == MaxDrawdown(t)
  {
    SameMembers(s, t);
    DrawdownIsMaximum(s);
    DrawdownIsMaximum(t);
  }

  /** Under a given context, rows outside the window do not change the aggregates. */
  lemma AggregatesIgnoreOutsideRows(
    a: seq<Outcome>, outside: seq<Outcome>, b: seq<Outcome>, ctx: Context, lookbackDays: int)
    requires forall r :: r in outside ==> !InWindow(ctx.timestamp, lookbackDays)(r)
    ensures Aggregate(Selected(a + outside + b, ctx, lookbackDays)) == Aggregate(Selected(a + b, ctx, lookbackDays))
  {
    OutsideRowsIgnored(a, outside, b, ctx, lookbackDays, Eligible());
  }

  /** No recorded drawdown counts as none. */
  function DrawdownOf(a: Aggregates): real {
    if a.maxDrawdown.Some? then a.maxDrawdown.value else 0.0
  }

  /** The level is decided by the worst figure alone, and a warning moves it up one step short of the top. */
  lemma LevelMeaning(a: Aggregates, warning: bool)
    ensures var level := Classify(Some(a), warning);
            var critical := a.winRate < 0.35 || a.expectancy < -0.30 || DrawdownOf(a) >= 15.0;
            var high := a.winRate < 0.45 || a.expectancy < -0.10 || DrawdownOf(a) >= 8.0;
            var moderate := a.winRate < 0.55 || a.expectancy < 0.0 || DrawdownOf(a) >= 4.0;
            && (level == Critical <==> critical || (warning && high))
            && (level == Low <==> !moderate && !warning)
            && (level.Rank() >= 2 <==> high || (warning && moderate))
  {
    var base := Classify(Some(a), false);
    assert base.Rank() >= 3 <==> a.winRate < 0.35 || a.expectancy < -0.30 || DrawdownOf(a) >= 15.0;
    assert base.Rank() >= 2 <==> a.winRate < 0.45 || a.expectancy < -0.10 || DrawdownOf(a) >= 8.0;
  }

  /** Worse figures, or an overconfidence warning, never lower the risk level. */
  lemma RiskIsMonotone(a: Aggregates, b: Aggregates, warnA: bool, warnB: bool)
    requires b.winRate <= a.winRate && b.expectancy <= a.expectancy
    requires a.maxDrawdown.Some? ==> b.maxDrawdown.Some? && a.maxDrawdown.value <= b.maxDrawdown.value
    requires a.maxDrawdown.None? && b.maxDrawdown.Some? ==> b.maxDrawdown.value >= 0.0
    requires warnA ==> warnB
    ensures Classify(Some(a), warnA).Rank() <= Classify(Some(b), warnB).Rank()
    ensures SizeMultiplier(Classify(Some(b), warnB)) <= SizeMultiplier(Classify(Some(a), warnA))
    ensures MinConfidence(Classify(Some(a), warnA)) <= MinConfidence(Classify(Some(b), warnB))
  {
    var x, y := Classify(Some(a), false), Classify(Some(b), false);
    assert x.Rank() <= y.Rank();
  }
}
