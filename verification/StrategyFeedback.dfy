/** The strategy feedback engine: one accumulator per slice, and the recommendations its slices earn. */
module StrategyFeedback {
  import opened Lists
  import opened Outcomes
  import opened Performance
  import Regimes
  import RiskTuning

  /** A slice's key is a text, so two slices whose names contain bars can share one. */
  function SliceKey(row: Outcome): string {
    var regime := if row.regime.Some? && row.regime.value != "" then row.regime.value else "any";
    row.symbol + "|" + row.timeframe + "|" + regime + "|" + row.signal
  }

  function InSlice(key: string): Outcome -> bool {
    (r: Outcome) => SliceKey(r) == key
  }

  /** The returns of the rows of one slice. */
  function SliceTrades(rows: seq<Outcome>, key: string): seq<Trade> {
    Regimes.TradesOf(Filter(rows, InSlice(key)))
  }

  function Figures(rows: seq<Outcome>): map<string, Stats> {
    Regimes.FiguresOf(rows, SliceKey, InSlice)
  }

  /** The slices that earn a recommendation. */
  function Earning(figures: map<string, Stats>, rec: Recommendation): set<string> {
    set k | k in figures && Verdict(figures[k]) == rec
  }

  function Feedback(rows: seq<Outcome>, ctx: Context): RiskTuning.Strategy {
    var figures := Figures(rows);
    RiskTuning.Strategy(|rows|, |figures|, |Earning(figures, Throttle)|, |Earning(figures, Disable)|,
                        |Earning(figures, Boost)|, Some(ctx))
  }

  function ContextOf(all: seq<Outcome>, lookbackDays: int, given: Option<Context>, digest: Digest): Context {
    DeriveContext(Filter(all, RiskTuning.Eligible()), lookbackDays, given, digest)
  }

  /** The engine's result on a table. */
  function FeedbackOn(
    all: seq<Outcome>, lookbackDays: int, given: Option<Context>, digest: Digest): RiskTuning.Strategy {
    var ctx := ContextOf(all, lookbackDays, given, digest);
    Feedback(RiskTuning.Selected(all, ctx, lookbackDays), ctx)
  }

  /** The slices of `done` that earn a recommendation, counted. */
  function Count(figures: map<string, Stats>, rec: Recommendation, done: set<string>): nat {
    |Earning(figures, rec) * done|
  }

  /** Counts the recommendations slice by slice. */
  method CountEarned(figures: map<string, Stats>) returns (throttled: nat, disabled: nat, boosted: nat)
    ensures throttled == |Earning(figures, Throttle)| && disabled == |Earning(figures, Disable)|
    ensures boosted == |Earning(figures, Boost)|
  {
    hide Verdict, Earning, Count;
    throttled, disabled, boosted := 0, 0, 0;
    CountBounds(figures, Throttle);
    CountBounds(figures, Disable);
    CountBounds(figures, Boost);
    var todo := figures.Keys;
    ghost var done: set<string> := {};
    while todo != {}
      invariant done + todo == figures.Keys && done !! todo
      invariant throttled == Count(figures, Throttle, done) && disabled == Count(figures, Disable, done)
      invariant boosted == Count(figures, Boost, done)
      decreases |todo|
    {
      var key :| key in todo;
      var rec := Verdict(figures[key]);
      CountOneMore(figures, Throttle, done, key);
      CountOneMore(figures, Disable, done, key);
      CountOneMore(figures, Boost, done, key);
      assert (done + {key}) + (todo - {key}) == figures.Keys;
      if rec == Throttle {
        throttled := throttled + 1;
      } else if rec == Disable {
        disabled := disabled + 1;
      } else if rec == Boost {
        boosted := boosted + 1;
      }
      done, todo := done + {key}, todo - {key};
    }
    assert done == figures.Keys;
  }

  lemma {:induction false} CountBounds(figures: map<string, Stats>, rec: Recommendation)
    ensures Count(figures, rec, {}) == 0
    ensures Count(figures, rec, figures.Keys) == |Earning(figures, rec)|
  {
    hide Verdict;
    assert Earning(figures, rec) * figures.Keys == Earning(figures, rec);
  }

  lemma {:induction false} CountOneMore(
    figures: map<string, Stats>, rec: Recommendation, done: set<string>, key: string)
    requires key in figures && key !in done
    ensures Count(figures, rec, done + {key})
         == Count(figures, rec, done) + if Verdict(figures[key]) == rec then 1 else 0
  {
    hide Verdict;
    if Verdict(figures[key]) == rec {
      assert Earning(figures, rec) * (done + {key}) == Earning(figures, rec) * done + {key};
    } else {
      assert Earning(figures, rec) * (done + {key}) == Earning(figures, rec) * done;
    }
  }

  method Evaluate(all: seq<Outcome>, lookbackDays: int, given: Option<Context>, digest: Digest)
    returns (result: RiskTuning.Strategy)
    ensures result == FeedbackOn(all, lookbackDays, given, digest)
  {
    hide Verdict, Regimes.FiguresOf, DeriveContext, Window, Filter;
    var eligible := Filter(all, RiskTuning.Eligible());
    var ctx := DeriveContext(eligible, lookbackDays, given, digest);
    var rows := FilterRowsForContext(eligible, ctx, lookbackDays);
    var accs := Regimes.Tally(rows, SliceKey, InSlice);
    var figures := Regimes.Snapshot(accs, Figures(rows));
    var throttled, disabled, boosted := CountEarned(figures);
    result := RiskTuning.Strategy(|rows|, |figures|, throttled, disabled, boosted, Some(ctx));
  }

  /** A slice is a top performer exactly when its own returns earn a boost. */
  lemma {:induction false} TopPerformersExactlyWhen(rows: seq<Outcome>, ctx: Context)
    ensures Feedback(rows, ctx).topPerformers > 0
      <==> exists key :: key in Regimes.Keys(rows, SliceKey) && Boostable(SliceTrades(rows, key))
  {
    hide Boostable, Verdict, Filter;
    var figures := Figures(rows);
    var boosted := Earning(figures, Boost);
    forall key | key in figures
      ensures key in boosted <==> Boostable(SliceTrades(rows, key))
    {
      VerdictExactlyWhen(SliceTrades(rows, key));
    }
    if |boosted| > 0 {
      var key :| key in boosted;
      assert key in Regimes.Keys(rows, SliceKey) && Boostable(SliceTrades(rows, key));
    }
    if key :| key in Regimes.Keys(rows, SliceKey) && Boostable(SliceTrades(rows, key)) {
      assert key in boosted;
    }
  }

  lemma {:induction false} TradesListed(rows: seq<Outcome>)
    ensures |Regimes.TradesOf(rows)| == |rows|
    ensures forall i :: 0 <= i < |rows| ==> Regimes.TradesOf(rows)[i] == Regimes.TradeOf(rows[i])
  {
    if rows != [] {
      TradesListed(rows[..|rows| - 1]);
    }
  }

  /** The figures of a slice's returns, read off its rows. */
  lemma {:induction false} TradesFigures(rows: seq<Outcome>)
    ensures var trades := Regimes.TradesOf(rows);
            && |trades| == |rows| && Total(trades) == SumBy(rows, Change())
            && Gains(trades) == |Filter(rows, RiskTuning.Gaining())|
            && SumBy(Filter(trades, IsGain()), Return()) == SumBy(Filter(rows, RiskTuning.Gaining()), Change())
  {
    if rows != [] {
      var m := |rows| - 1;
      var before, t := Regimes.TradesOf(rows[..m]), Regimes.TradeOf(rows[m]);
      TradesFigures(rows[..m]);
      SumSnoc(before, t, Return());
      FilterSnoc(before, t, IsGain());
      assert Change()(rows[m]) == t.ret;
      if t.ret > 0.0 {
        SumSnoc(Filter(before, IsGain()), t, Return());
        SumSnoc(Filter(rows[..m], RiskTuning.Gaining()), rows[m], Change());
      }
    }
  }

  /** The engine counts a rising price as a win whatever was signalled: a slice of correct SELLs is never kept or
      boosted, and from 20 rows on it is disabled when the prices fell by more than a tenth of a point on average. */
  lemma {:induction false} CorrectSellsAreLosses(slice: seq<Outcome>)
    requires forall r :: r in slice ==> Tracked(r) && r.signal != "BUY" && r.correct == Some(true)
    ensures var trades := Regimes.TradesOf(slice);
            var n := |slice|;
            Verdict(StatsOf(trades))
            == if n < 10 then ObserveOnly
               else if n >= 20 && Total(trades) < -0.1 * n as real then Disable else Throttle
  {
    var trades := Regimes.TradesOf(slice);
    TradesListed(slice);
    forall t | t in trades
      ensures t.ret < 0.0
    {
      var i :| 0 <= i < |trades| && trades[i] == t;
      assert slice[i] in slice;
    }
    FilterUniform(trades, IsGain(), false);
    TotalNegative(trades);
    VerdictExactlyWhen(trades);
    hide StatsOf, Total, Filter;
  }

  lemma {:induction false} TotalNegative(trades: seq<Trade>)
    requires forall t :: t in trades ==> t.ret < 0.0
    ensures Total(trades) <= 0.0
    ensures |trades| > 0 ==> Total(trades) < 0.0
  {
    if trades != [] {
      assert trades[|trades| - 1] in trades;
      TotalNegative(trades[..|trades| - 1]);
    }
  }

  /** A slice of SELLs that were all wrong, on rising prices, is kept. */
  lemma WrongSellsAreKept(slice: seq<Outcome>)
    requires |slice| >= 10
    requires forall r :: r in slice ==> Tracked(r) && r.signal != "BUY" && r.priceChange.value > 0.0
    ensures forall r :: r in slice ==> r.correct == Some(false)
    ensures Verdict(StatsOf(Regimes.TradesOf(slice))) == Keep
  {
    var trades := Regimes.TradesOf(slice);
    TradesListed(slice);
    forall t | t in trades
      ensures t.ret > 0.0
    {
      var i :| 0 <= i < |trades| && trades[i] == t;
      assert slice[i] in slice;
    }
    FilterUniform(trades, IsGain(), true);
    FlawlessSliceIsNotBoosted(trades);
  }
}
