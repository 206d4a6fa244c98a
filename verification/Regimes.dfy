/** Performance by market regime: one accumulator per slice and one per regime. */
module Regimes {
  import opened Lists
  import opened Outcomes
  import opened Performance

  datatype Slice = Slice(regime: string, signal: string, symbol: string, timeframe: string)

  function Eligible(): Outcome -> bool {
    (r: Outcome) => r.correct.Some? && r.priceChange.Some? && r.regime.Some?
  }

  /** A missing or empty regime is reported as unknown. */
  function RegimeOf(row: Outcome): string {
    if row.regime.Some? && row.regime.value != "" then row.regime.value else "unknown"
  }

  function SliceOf(row: Outcome): Slice {
    Slice(RegimeOf(row), row.signal, row.symbol, row.timeframe)
  }

  function TradeOf(row: Outcome): Trade {
    Trade(if row.priceChange.Some? then row.priceChange.value else 0.0, row.id)
  }

  function TradesOf(rows: seq<Outcome>): seq<Trade> {
    if rows == [] then [] else TradesOf(rows[..|rows| - 1]) + [TradeOf(rows[|rows| - 1])]
  }

  function InSlice(k: Slice): Outcome -> bool {
    (r: Outcome) => SliceOf(r) == k
  }

  function InRegime(g: string): Outcome -> bool {
    (r: Outcome) => RegimeOf(r) == g
  }

  /** The figures of the rows that satisfy `p`. */
  function StatsWhere(rows: seq<Outcome>, p: Outcome -> bool): Stats {
    StatsOf(TradesOf(Filter(rows, p)))
  }

  function Merge(a: Stats, b: Stats): Stats {
    Stats(a.wins + b.wins, a.losses + b.losses, a.grossProfit + b.grossProfit, a.grossLoss + b.grossLoss)
  }

  function MergeSlices(rows: seq<Outcome>, slices: seq<Slice>): Stats {
    if slices == [] then StatsOf([])
    else Merge(MergeSlices(rows, slices[..|slices| - 1]), StatsWhere(rows, InSlice(slices[|slices| - 1])))
  }

  datatype Adaptation = Adaptation(sampleSize: nat, winRate: real, expectancy: real, recommendation: Recommendation)

  function Adapt(s: Stats): Adaptation {
    Adaptation(s.SampleSize(), s.WinRate(), s.Expectancy(), Verdict(s))
  }

  datatype Report = Report(
    adaptations: map<Slice, Adaptation>, perRegime: map<string, Stats>, distribution: map<string, nat>,
    dominant: Option<string>)

  function Keys<K>(rows: seq<Outcome>, key: Outcome -> K): set<K> {
    set r | r in rows :: key(r)
  }

  lemma StatsSnoc(rows: seq<Outcome>, r: Outcome, p: Outcome -> bool)
    ensures StatsWhere(rows + [r], p) == if p(r) then StatsWhere(rows, p).Add(TradeOf(r)) else StatsWhere(rows, p)
  {
    FilterSnoc(rows, r, p);
    var s := Filter(rows, p);
    assert (s + [r])[..|s|] == s;
    var t := TradesOf(s);
    assert (t + [TradeOf(r)])[..|t|] == t;
  }

  // ----- The accumulation loop

  /** Distinct keys own distinct accumulators, and each holds the given figures. */
  ghost predicate Holds<K>(accs: map<K, Acc>, figures: map<K, Stats>)
    reads accs.Values
  {
    && accs.Keys == figures.Keys
    && (forall j, k :: j in accs && k in accs && j != k ==> accs[j] != accs[k])
    && (forall k :: k in accs ==> accs[k] in accs.Values && accs[k].View() == figures[k])
  }

  function Recorded<K>(figures: map<K, Stats>, key: K, t: Trade): map<K, Stats> {
    figures[key := (if key in figures then figures[key] else StatsOf([])).Add(t)]
  }

  /** Adds a trade under `key`, creating the accumulator on first use. */
  method Record<K(==)>(accs: map<K, Acc>, key: K, t: Trade, ghost figures: map<K, Stats>) returns (next: map<K, Acc>)
    requires Holds(accs, figures)
    modifies accs.Values
    ensures Holds(next, Recorded(figures, key, t))
    ensures fresh(next.Values - accs.Values)
  {
    next := accs;
    if key !in next {
      var acc := new Acc();
      next := next[key := acc];
    }
    next[key].Add(t);
    forall k | k in next
      ensures next[k] in next.Values
    {
    }
  }

  /** `select(k)` picks the rows keyed `k`. */
  ghost predicate Selects<K(!new)>(key: Outcome -> K, select: K -> (Outcome -> bool)) {
    forall k, r :: select(k)(r) <==> key(r) == k
  }

  /** The figures of every key that occurs in the rows. */
  function FiguresOf<K>(rows: seq<Outcome>, key: Outcome -> K, select: K -> (Outcome -> bool)): map<K, Stats> {
    map k | k in Keys(rows, key) :: StatsWhere(rows, select(k))
  }

  lemma {:induction false} FiguresSnoc<K(!new)>(
    rows: seq<Outcome>, r: Outcome, key: Outcome -> K, select: K -> (Outcome -> bool))
    requires Selects(key, select)
    ensures FiguresOf(rows + [r], key, select) == Recorded(FiguresOf(rows, key, select), key(r), TradeOf(r))
  {
    hide StatsWhere;
    assert Keys(rows + [r], key) == Keys(rows, key) + {key(r)};
    forall k | k in Keys(rows + [r], key)
      ensures FiguresOf(rows + [r], key, select)[k] == Recorded(FiguresOf(rows, key, select), key(r), TradeOf(r))[k]
    {
      StatsSnoc(rows, r, select(k));
      if k !in Keys(rows, key) {
        UnseenKey(rows, key, select, k);
      }
    }
  }

  lemma UnseenKey<K(!new)>(rows: seq<Outcome>, key: Outcome -> K, select: K -> (Outcome -> bool), k: K)
    requires Selects(key, select)
    requires k !in Keys(rows, key)
    ensures StatsWhere(rows, select(k)) == StatsOf([])
  {
    FilterNone(rows, select(k));
  }

  method Tally<K(==, !new)>(rows: seq<Outcome>, key: Outcome -> K, ghost select: K -> (Outcome -> bool))
    returns (accs: map<K, Acc>)
    requires Selects(key, select)
    ensures Holds(accs, FiguresOf(rows, key, select)) && fresh(accs.Values)
  {
    hide FiguresOf, Recorded, StatsWhere;
    accs := map[];
    NoFigures(key, select);
    for i := 0 to |rows|
      invariant Holds(accs, FiguresOf(rows[..i], key, select)) && fresh(accs.Values)
    {
      FiguresSnoc(rows[..i], rows[i], key, select);
      assert rows[..i + 1] == rows[..i] + [rows[i]];
      accs := Record(accs, key(rows[i]), TradeOf(rows[i]), FiguresOf(rows[..i], key, select));
    }
    assert rows[..|rows|] == rows;
  }

  lemma NoFigures<K>(key: Outcome -> K, select: K -> (Outcome -> bool))
    ensures FiguresOf([], key, select) == map[]
  {
  }

  ghost predicate MostFrequent(distribution: map<string, nat>, best: Option<string>) {
    && (best.None? <==> distribution == map[])
    && (best.Some? ==> best.value in distribution)
    && (best.Some? ==> forall g :: g in distribution ==> distribution[g] <= distribution[best.value])
  }

  function AdaptAll(figures: map<Slice, Stats>): map<Slice, Adaptation> {
    map k | k in figures :: Adapt(figures[k])
  }

  function Sizes(figures: map<string, Stats>): map<string, nat> {
    map g | g in figures :: figures[g].SampleSize()
  }

  /** Reads the accumulators back out. */
  method Snapshot<K(==)>(accs: map<K, Acc>, ghost figures: map<K, Stats>) returns (view: map<K, Stats>)
    requires Holds(accs, figures)
    ensures view == figures
  {
    view := map k | k in accs :: Stats(accs[k].wins, accs[k].losses, accs[k].grossProfit, accs[k].grossLoss);
  }

  /** The reports an evaluation may return; only the choice among equally frequent regimes is open. */
  ghost predicate IsReport(
    all: seq<Outcome>, lookbackDays: int, given: Option<Context>, digest: Digest, report: Report)
  {
    var ctx := DeriveContext(Filter(all, Eligible()), lookbackDays, given, digest);
    var rows := Window(Filter(all, Eligible()), ctx, lookbackDays);
    && report.adaptations == AdaptAll(FiguresOf(rows, SliceOf, InSlice))
    && report.perRegime == FiguresOf(rows, RegimeOf, InRegime)
    && report.distribution == Sizes(report.perRegime)
    && MostFrequent(report.distribution, report.dominant)
  }

  method Evaluate(all: seq<Outcome>, lookbackDays: int, given: Option<Context>, digest: Digest) returns (report: Report)
    ensures IsReport(all, lookbackDays, given, digest, report)
  {
    hide FiguresOf, AdaptAll, DeriveContext, Window;
    var eligible := Filter(all, Eligible());
    var ctx := DeriveContext(eligible, lookbackDays, given, digest);
    var rows := FilterRowsForContext(eligible, ctx, lookbackDays);
    var details := Tally(rows, SliceOf, InSlice);
    var regimes := Tally(rows, RegimeOf, InRegime);
    var slices := Snapshot(details, FiguresOf(rows, SliceOf, InSlice));
    var perRegime := Snapshot(regimes, FiguresOf(rows, RegimeOf, InRegime));
    var distribution := Sizes(perRegime);
    var dominant: Option<string> := None;
    if distribution != map[] {
      var best := MostObserved(distribution);
      dominant := Some(best);
    }
    report := Report(AdaptAll(slices), perRegime, distribution, dominant);
  }

  lemma SampleSizeIsCount(rows: seq<Outcome>, p: Outcome -> bool)
    ensures StatsWhere(rows, p).SampleSize() == |Filter(rows, p)|
  {
    EveryReturnCounted(TradesOf(Filter(rows, p)));
    TradesLength(Filter(rows, p));
  }

  lemma {:induction false} TradesLength(rows: seq<Outcome>)
    ensures |TradesOf(rows)| == |rows|
  {
    if rows != [] {
      TradesLength(rows[..|rows| - 1]);
    }
  }

  /** A key with the largest count. */
  method MostObserved(counts: map<string, nat>) returns (best: string)
    requires counts != map[]
    ensures best in counts && forall g :: g in counts ==> counts[g] <= counts[best]
  {
    best :| best in counts;
    var todo := counts.Keys - {best};
    while todo != {}
      invariant best in counts && todo <= counts.Keys
      invariant forall g :: g in counts.Keys - todo ==> counts[g] <= counts[best]
      decreases |todo|
    {
      var g :| g in todo;
      if counts[g] > counts[best] {
        best := g;
      }
      todo := todo - {g};
    }
  }

  lemma {:induction false} LargestOf(counts: map<string, nat>, keys: set<string>) returns (best: string)
    requires keys != {} && keys <= counts.Keys
    ensures best in keys && forall g :: g in keys ==> counts[g] <= counts[best]
  {
    best :| best in keys;
    if keys != {best} {
      var rest := LargestOf(counts, keys - {best});
      if counts[rest] > counts[best] {
        best := rest;
      }
    }
  }

  /** Some report can always be returned. */
  lemma SomeReport(all: seq<Outcome>, lookbackDays: int, given: Option<Context>, digest: Digest)
    returns (report: Report)
    ensures IsReport(all, lookbackDays, given, digest, report)
  {
    hide FiguresOf, AdaptAll, DeriveContext, Window, Filter;
    var ctx := DeriveContext(Filter(all, Eligible()), lookbackDays, given, digest);
    var rows := Window(Filter(all, Eligible()), ctx, lookbackDays);
    var perRegime := FiguresOf(rows, RegimeOf, InRegime);
    var distribution := Sizes(perRegime);
    var dominant: Option<string> := None;
    if distribution != map[] {
      assert distribution.Keys != {};
      var best := LargestOf(distribution, distribution.Keys);
      dominant := Some(best);
    }
    report := Report(AdaptAll(FiguresOf(rows, SliceOf, InSlice)), perRegime, distribution, dominant);
  }

  // ----- Regime totals merge their slices

  lemma EmptyStats(p: Outcome -> bool)
    ensures StatsWhere([], p) == Stats(0, 0, 0.0, 0.0)
  {
  }

  lemma {:induction false} SplitStats(
    rows: seq<Outcome>, p: Outcome -> bool, q: Outcome -> bool, either: Outcome -> bool)
    requires forall r :: either(r) == (p(r) || q(r))
    requires forall r :: !(p(r) && q(r))
    ensures StatsWhere(rows, either) == Merge(StatsWhere(rows, p), StatsWhere(rows, q))
  {
    hide StatsOf, TradesOf, StatsWhere;
    if rows == [] {
      EmptyStats(p);
      EmptyStats(q);
      EmptyStats(either);
    } else {
      var m := |rows| - 1;
      SplitStats(rows[..m], p, q, either);
      assert rows == rows[..m] + [rows[m]];
      StatsSnoc(rows[..m], rows[m], p);
      StatsSnoc(rows[..m], rows[m], q);
      StatsSnoc(rows[..m], rows[m], either);
    }
  }

  function InAny(slices: seq<Slice>): Outcome -> bool {
    (r: Outcome) => SliceOf(r) in slices
  }

  lemma {:induction false} SlicesMerge(rows: seq<Outcome>, slices: seq<Slice>)
    requires forall i, j :: 0 <= i < j < |slices| ==> slices[i] != slices[j]
    ensures MergeSlices(rows, slices) == StatsWhere(rows, InAny(slices))
  {
    hide StatsWhere, StatsOf, Merge;
    if slices == [] {
      NoSliceStats(rows);
    } else {
      var m := |slices| - 1;
      SlicesMerge(rows, slices[..m]);
      assert slices == slices[..m] + [slices[m]];
      SplitStats(rows, InAny(slices[..m]), InSlice(slices[m]), InAny(slices));
    }
  }

  lemma NoSliceStats(rows: seq<Outcome>)
    ensures StatsWhere(rows, InAny([])) == StatsOf([])
  {
    FilterNone(rows, InAny([]));
  }

  /** A regime's figures are the merge of the slices observed in it, listed once each in any order. */
  lemma {:induction false} RegimeIsMergeOfSlices(rows: seq<Outcome>, g: string, slices: seq<Slice>)
    requires forall i, j :: 0 <= i < j < |slices| ==> slices[i] != slices[j]
    requires forall k :: k in slices <==> k in Keys(rows, SliceOf) && k.regime == g
    ensures StatsWhere(rows, InRegime(g)) == MergeSlices(rows, slices)
  {
    SlicesMerge(rows, slices);
    assert forall r :: r in rows ==> SliceOf(r) in Keys(rows, SliceOf);
    FilterCongruent(rows, InRegime(g), InAny(slices));
  }
}
