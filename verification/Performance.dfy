/** Return accumulators, their derived figures, and the recommendation they earn. */
module Performance {
  import opened Lists

  const MIN_SAMPLE: nat := 10
  const MIN_SAMPLE_BOOST: nat := 30
  const MIN_SAMPLE_DISABLE: nat := 20

  datatype Recommendation = Keep | Throttle | Disable | Boost | ObserveOnly

  /** One return, with the id of the outcome it came from. */
  datatype Trade = Trade(ret: real, evidence: Option<string>)

  /** The content of a return accumulator. */
  datatype Stats = Stats(wins: nat, losses: nat, grossProfit: real, grossLoss: real)
  {
    function Add(t: Trade): Stats {
      if t.ret > 0.0 then Stats(wins + 1, losses, grossProfit + t.ret, grossLoss)
      else Stats(wins, losses + 1, grossProfit, grossLoss + Abs(t.ret))
    }

    function SampleSize(): nat {
      wins + losses
    }

    function WinRate(): real {
      Ratio(wins as real, SampleSize())
    }

    function Expectancy(): real {
      if SampleSize() == 0 then 0.0
      else Blend(WinRate(), Ratio(grossProfit, wins), Ratio(grossLoss, losses))
    }

    function ProfitFactor(): Option<real> {
      if grossLoss == 0.0 then None else Some(grossProfit / grossLoss)
    }
  }

  /** Win rate times average win, less loss rate times average loss. */
  function Blend(winRate: real, avgWin: real, avgLoss: real): real {
    Times(winRate, avgWin) - Times(1.0 - winRate, avgLoss)
  }

  /** The accumulator after the given returns, in order. */
  function StatsOf(trades: seq<Trade>): Stats {
    if trades == [] then Stats(0, 0, 0.0, 0.0)
    else StatsOf(trades[..|trades| - 1]).Add(trades[|trades| - 1])
  }

  function Return(): Trade -> real {
    (t: Trade) => t.ret
  }

  function Total(trades: seq<Trade>): real {
    SumBy(trades, Return())
  }

  function Classify(winRate: real, expectancy: real, profitFactor: Option<real>, sampleSize: nat): Recommendation {
    var pf := if profitFactor.Some? then profitFactor.value else 0.0;
    if sampleSize < MIN_SAMPLE then ObserveOnly
    else if winRate >= 0.60 && expectancy > 0.0 && pf >= 1.5 && sampleSize >= MIN_SAMPLE_BOOST then Boost
    else if winRate >= 0.50 && expectancy >= 0.0 then Keep
    else if winRate < 0.40 && expectancy < -0.1 && sampleSize >= MIN_SAMPLE_DISABLE then Disable
    else Throttle
  }

  function Verdict(s: Stats): Recommendation {
    Classify(s.WinRate(), s.Expectancy(), s.ProfitFactor(), s.SampleSize())
  }

  /** A mutable accumulator, one per slice or regime. */
  class Acc {
    var wins: nat
    var losses: nat
    var rets: seq<real>
    var grossProfit: real
    var grossLoss: real
    var evidence: seq<string>

    ghost function View(): Stats
      reads this
    {
      Stats(wins, losses, grossProfit, grossLoss)
    }

    constructor ()
      ensures View() == StatsOf([]) && rets == [] && evidence == []
    {
      wins, losses, rets, grossProfit, grossLoss, evidence := 0, 0, [], 0.0, 0.0, [];
    }

    method Add(t: Trade)
      modifies this
      ensures View() == old(View()).Add(t)
      ensures rets == old(rets) + [t.ret]
      ensures evidence == old(evidence) + if t.evidence.Some? then [t.evidence.value] else []
    {
      rets := rets + [t.ret];
      if t.evidence.Some? {
        evidence := evidence + [t.evidence.value];
      }
      if t.ret > 0.0 {
        wins := wins + 1;
        grossProfit := grossProfit + t.ret;
      } else {
        losses := losses + 1;
        grossLoss := grossLoss + Abs(t.ret);
      }
    }
  }

  // ----- What the accumulated figures mean

  /** Every return is counted once. */
  lemma {:induction false} EveryReturnCounted(trades: seq<Trade>)
    ensures StatsOf(trades).SampleSize() == |trades|
  {
    if trades != [] {
      EveryReturnCounted(trades[..|trades| - 1]);
    }
  }

  /** Profit less loss is the sum of the returns. */
  lemma {:induction false} NetIsTotal(trades: seq<Trade>)
    ensures StatsOf(trades).grossProfit - StatsOf(trades).grossLoss == Total(trades)
  {
    if trades != [] {
      NetIsTotal(trades[..|trades| - 1]);
    }
  }

  /** Gross profit is the sum of the positive returns. */
  lemma {:induction false} GrossProfitIsGains(trades: seq<Trade>)
    ensures StatsOf(trades).grossProfit == SumBy(Filter(trades, IsGain()), Return())
  {
    if trades != [] {
      var m := |trades| - 1;
      GrossProfitIsGains(trades[..m]);
      if trades[m].ret > 0.0 {
        SumSnoc(Filter(trades[..m], IsGain()), trades[m], Return());
      }
    }
  }

  lemma {:induction false} GrossSigns(trades: seq<Trade>)
    ensures StatsOf(trades).grossProfit >= 0.0 && StatsOf(trades).grossLoss >= 0.0
    ensures StatsOf(trades).wins == 0 ==> StatsOf(trades).grossProfit == 0.0
    ensures StatsOf(trades).losses == 0 ==> StatsOf(trades).grossLoss == 0.0
  {
    if trades != [] {
      GrossSigns(trades[..|trades| - 1]);
    }
  }

  /** Gross loss is zero exactly when no return is negative. */
  lemma {:induction false} GrossLossMeaning(trades: seq<Trade>)
    ensures StatsOf(trades).grossLoss == 0.0 <==> forall t :: t in trades ==> t.ret >= 0.0
  {
    if trades != [] {
      var m := |trades| - 1;
      GrossLossMeaning(trades[..m]);
      GrossSigns(trades[..m]);
      assert trades == trades[..m] + [trades[m]];
    }
  }

  /** A share of n times the mean over that share is the sum over n. */
  lemma ShareTimesMean(sum: real, part: nat, whole: nat)
    requires part <= whole
    requires part == 0 ==> sum == 0.0
    ensures Times(Ratio(part as real, whole), Ratio(sum, part)) == Ratio(sum, whole)
  {
    if 0 < part {
      var p, n := part as real, whole as real;
      assert (p / n) * (sum / p) == sum / n;
    } else {
      assert Ratio(sum, part) == 0.0 && Ratio(sum, whole) == 0.0;
    }
  }

  lemma ComplementShare(part: nat, rest: nat)
    requires part + rest > 0
    ensures 1.0 - Ratio(part as real, part + rest) == Ratio(rest as real, part + rest)
  {
    var n := (part + rest) as real;
    assert part as real / n + rest as real / n == 1.0;
  }

  lemma RatioDifference(a: real, b: real, n: nat)
    ensures Ratio(a, n) - Ratio(b, n) == Ratio(a - b, n)
  {
  }

  /** Blending the averages of wins and losses gives the mean of all. */
  lemma BlendIsMean(profit: real, loss: real, wins: nat, losses: nat)
    requires wins + losses > 0
    requires wins == 0 ==> profit == 0.0
    requires losses == 0 ==> loss == 0.0
    ensures Blend(Ratio(wins as real, wins + losses), Ratio(profit, wins), Ratio(loss, losses))
         == Ratio(profit - loss, wins + losses)
  {
    ComplementShare(wins, losses);
    ShareTimesMean(profit, wins, wins + losses);
    ShareTimesMean(loss, losses, wins + losses);
    RatioDifference(profit, loss, wins + losses);
  }

  lemma ExpectancyOfStats(s: Stats)
    requires s.wins == 0 ==> s.grossProfit == 0.0
    requires s.losses == 0 ==> s.grossLoss == 0.0
    ensures s.Expectancy() == Ratio(s.grossProfit - s.grossLoss, s.SampleSize())
  {
    if s.SampleSize() > 0 {
      hide Ratio, Blend;
      BlendIsMean(s.grossProfit, s.grossLoss, s.wins, s.losses);
    }
  }

  /** Expectancy is the arithmetic mean of the returns. */
  lemma {:induction false} ExpectancyIsMean(trades: seq<Trade>)
    ensures StatsOf(trades).Expectancy() == Ratio(Total(trades), |trades|)
  {
    hide Ratio, Blend, Stats.Expectancy;
    EveryReturnCounted(trades);
    NetIsTotal(trades);
    GrossSigns(trades);
    ExpectancyOfStats(StatsOf(trades));
  }

  lemma RatioAbove(a: real, n: nat, bound: real)
    requires n > 0
    ensures Ratio(a, n) > bound <==> a > Times(bound, n as real)
    ensures Ratio(a, n) < bound <==> a < Times(bound, n as real)
  {
    QuotientAbove(a, n as real, bound);
  }

  lemma QuotientAbove(a: real, d: real, bound: real)
    requires d > 0.0
    ensures a / d > bound <==> a > Times(bound, d)
    ensures a / d < bound <==> a < Times(bound, d)
  {
    var q := a / d;
    assert q * d == a;
    if q < bound {
      ProductOrder(q, bound, d);
    } else if bound < q {
      ProductOrder(bound, q, d);
    }
  }

  /** The profit factor exists when some return is negative, and exceeds 1 when expectancy is positive. */
  lemma ProfitFactorMatchesExpectancy(trades: seq<Trade>)
    ensures var pf := StatsOf(trades).ProfitFactor();
            && (pf.Some? <==> exists t :: t in trades && t.ret < 0.0)
            && (pf.Some? ==> (pf.value > 1.0 <==> StatsOf(trades).Expectancy() > 0.0))
  {
    var s := StatsOf(trades);
    NetIsTotal(trades);
    GrossSigns(trades);
    GrossLossMeaning(trades);
    ExpectancyIsMean(trades);
    hide Ratio, Blend;
    if s.grossLoss != 0.0 {
      RatioAbove(Total(trades), |trades|, 0.0);
      QuotientAbove(s.grossProfit, s.grossLoss, 1.0);
    }
  }

  function IsGain(): Trade -> bool {
    (t: Trade) => t.ret > 0.0
  }

  /** The number of positive returns. */
  function Gains(trades: seq<Trade>): nat {
    |Filter(trades, IsGain())|
  }

  lemma {:induction false} WinsAreGains(trades: seq<Trade>)
    ensures StatsOf(trades).wins == Gains(trades)
  {
    if trades != [] {
      WinsAreGains(trades[..|trades| - 1]);
    }
  }

  /** A share compared with `num/den`, over the counts. */
  lemma ShareAtLeast(part: nat, whole: nat, bound: real, num: nat, den: nat)
    requires whole > 0 && den > 0 && bound == num as real / den as real
    ensures Ratio(part as real, whole) >= bound <==> den * part >= num * whole
  {
    RatioAbove(part as real, whole, bound);
    var n, d := num as real, den as real;
    assert bound * d == n;
    assert Times(bound, whole as real) * d == n * whole as real;
    assert (den * part) as real == part as real * d && (num * whole) as real == n * whole as real;
    ScaledOrder(part as real, Times(bound, whole as real), d);
  }

  lemma ScaledOrder(a: real, b: real, d: real)
    requires d > 0.0
    ensures a >= b <==> a * d >= b * d
  {
  }

  /** The verdict's three comparisons, in counts and sums. */
  lemma VerdictTests(trades: seq<Trade>)
    requires |trades| > 0
    ensures var s := StatsOf(trades);
            && (s.WinRate() >= 0.60 <==> 5 * Gains(trades) >= 3 * |trades|)
            && (s.WinRate() >= 0.50 <==> 2 * Gains(trades) >= |trades|)
            && (s.WinRate() >= 0.40 <==> 5 * Gains(trades) >= 2 * |trades|)
            && (s.Expectancy() > 0.0 <==> Total(trades) > 0.0)
            && (s.Expectancy() >= 0.0 <==> Total(trades) >= 0.0)
            && (s.Expectancy() < -0.1 <==> Total(trades) < -0.1 * |trades| as real)
  {
    hide Ratio, Blend, StatsOf, Total;
    WinsAreGains(trades);
    EveryReturnCounted(trades);
    ExpectancyIsMean(trades);
    ShareAtLeast(Gains(trades), |trades|, 0.60, 3, 5);
    ShareAtLeast(Gains(trades), |trades|, 0.50, 1, 2);
    ShareAtLeast(Gains(trades), |trades|, 0.40, 2, 5);
    RatioAbove(Total(trades), |trades|, 0.0);
    RatioAbove(Total(trades), |trades|, -0.1);
  }

  /** Some return is negative, and the profits are at least 1.5 times the losses. */
  ghost predicate ProfitsCoverLosses(trades: seq<Trade>) {
    && (exists t :: t in trades && t.ret < 0.0)
    && StatsOf(trades).grossProfit >= 1.5 * StatsOf(trades).grossLoss
  }

  lemma FactorTest(trades: seq<Trade>)
    ensures var pf := StatsOf(trades).ProfitFactor();
            (pf.Some? && pf.value >= 1.5) <==> ProfitsCoverLosses(trades)
  {
    var s := StatsOf(trades);
    GrossSigns(trades);
    GrossLossMeaning(trades);
    hide StatsOf;
    if s.grossLoss > 0.0 {
      QuotientAbove(s.grossProfit, s.grossLoss, 1.5);
      assert Times(1.5, s.grossLoss) == 1.5 * s.grossLoss;
    }
  }

  /** What earns a boost. */
  ghost predicate Boostable(trades: seq<Trade>) {
    |trades| >= 30 && 5 * Gains(trades) >= 3 * |trades| && Total(trades) > 0.0 && ProfitsCoverLosses(trades)
  }

  /** When a slice gets each recommendation, in counts and sums of its returns. */
  lemma VerdictExactlyWhen(trades: seq<Trade>)
    ensures var n, v := |trades|, Verdict(StatsOf(trades));
            && (v == ObserveOnly <==> n < 10)
            && (v == Boost <==> Boostable(trades))
            && (v == Keep <==> n >= 10 && !Boostable(trades) && 2 * Gains(trades) >= n && Total(trades) >= 0.0)
            && (v == Disable <==> n >= 20 && 5 * Gains(trades) < 2 * n && Total(trades) < -0.1 * n as real)
  {
    hide Ratio, Blend, StatsOf, Total, Gains, ProfitsCoverLosses, Stats.Expectancy, Stats.WinRate, Stats.ProfitFactor;
    EveryReturnCounted(trades);
    FactorTest(trades);
    if |trades| > 0 {
      VerdictTests(trades);
    }
  }

  /** Without a negative return there is no profit factor, so a slice of any size is kept if at least half of its
      returns gain, throttled otherwise, and never boosted. */
  lemma FlawlessSliceIsNotBoosted(trades: seq<Trade>)
    requires |trades| >= 10
    requires forall t :: t in trades ==> t.ret >= 0.0
    ensures Verdict(StatsOf(trades)) == if 2 * Gains(trades) >= |trades| then Keep else Throttle
  {
    GrossLossMeaning(trades);
    NetIsTotal(trades);
    GrossSigns(trades);
    VerdictExactlyWhen(trades);
    hide StatsOf, Gains, Total;
  }
}
