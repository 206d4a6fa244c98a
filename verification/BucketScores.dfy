/** The scores of a confidence bucket: stability of its returns, reliability, temporal decay and weight. */
module BucketScores {
  import opened Lists
  import opened Outcomes
  import opened Drift
  import Calibration
  import RiskTuning

  function Deviance(mean: real): real -> real {
    (v: real) => Times(v - mean, v - mean)
  }

  function Mean(values: seq<real>): real {
    Ratio(SumBy(values, Itself()), |values|)
  }

  function Spread(values: seq<real>): real {
    Ratio(SumBy(values, Deviance(Mean(values))), |values|)
  }

  function Stability(changes: seq<real>, root: real -> real): real {
    if changes == [] then 0.0
    else if |changes| == 1 then 1.0
    else Clamp(Inverse(1.0 + root(Spread(changes))))
  }

  /** `1 / d`; the divisor used here is never zero. */
  function Inverse(d: real): real {
    if d == 0.0 then 0.0 else 1.0 / d
  }

  function Age(): int -> real {
    (t: int) => t as real
  }

  /** One at the evaluation's time, falling over a year to a quarter and no further. */
  function Decay(days: real): real {
    Max(0.25, Min(1.0, 1.0 - days / 365.0))
  }

  /** The decay of the rows' mean age in days, or of the lookback when no row has a timestamp. */
  function TemporalDecay(timestamps: seq<int>, now: int, lookbackDays: int): real {
    if timestamps == [] then Decay(lookbackDays as real)
    else Decay(Max(0.0, (now as real - Ratio(SumBy(timestamps, Age()), |timestamps|)) / DAY as real))
  }

  datatype Scores = Scores(stability: real, coverage: real, reliability: real, decay: real, weight: real)

  function ScoresOf(
    t: Calibration.Tally, changes: seq<real>, timestamps: seq<int>, now: int, lookbackDays: int,
    root: real -> real): Scores
  {
    var n := t.SampleSize();
    var realized := Ratio(t.wins as real, n);
    var stability := Stability(changes, root);
    var coverage := Clamp(n as real / 30.0);
    var reliability := Clamp(realized * 0.50 + stability * 0.25 + coverage * 0.25);
    var decay := TemporalDecay(timestamps, now, lookbackDays);
    Scores(stability, coverage, reliability, decay, Times(reliability, decay))
  }

  /** The scores of a bucket that holds these rows. */
  function ScoresFor(own: seq<Outcome>, now: int, lookbackDays: int, root: real -> real): Scores {
    var listed := Calibration.ListedOf(own);
    ScoresOf(Calibration.TallyOf(own), listed.changes, listed.timestamps, now, lookbackDays, root)
  }

  /** One score for each bucket, made of exactly the rows in its range. */
  ghost predicate ScoresOwnRows(
    scores: seq<Scores>, buckets: seq<Calibration.Bucket>, rows: seq<Outcome>, now: int, lookbackDays: int,
    root: real -> real)
  {
    |scores| == |buckets| && forall i :: 0 <= i < |buckets| ==>
      scores[i] == ScoresFor(Filter(rows, Calibration.InBucket(buckets[i].index)), now, lookbackDays, root)
  }

  /** The scores of the populated buckets, in bucket order, as the bucket loop computes them. */
  method ScoreBuckets(
    accs: seq<Calibration.BucketAcc>, ghost rows: seq<Outcome>, now: int, lookbackDays: int, root: real -> real)
    returns (scores: seq<Scores>)
    requires Calibration.Accumulated(accs, rows)
    ensures ScoresOwnRows(scores, Calibration.BucketsUpTo(rows, Calibration.BUCKETS), rows, now, lookbackDays, root)
  {
    hide ScoresOf, Calibration.TallyOf, Calibration.ListedOf, Filter;
    scores := [];
    for k := 0 to Calibration.BUCKETS
      invariant ScoresOwnRows(scores, Calibration.BucketsUpTo(rows, k), rows, now, lookbackDays, root)
    {
      var acc := accs[k];
      ghost var own := Filter(rows, Calibration.InBucket(k));
      PopulatedWhenCounted(rows, k);
      assert acc.View() == Calibration.TallyOf(own) && acc.Lists() == Calibration.ListedOf(own);
      if acc.wins + acc.losses != 0 {
        var tally := Calibration.Tally(acc.confidenceSum, acc.wins, acc.losses, SumBy(acc.changes, Itself()));
        scores := scores + [ScoresOf(tally, acc.changes, acc.timestamps, now, lookbackDays, root)];
      }
    }
  }

  lemma PopulatedWhenCounted(rows: seq<Outcome>, k: nat)
    ensures var bucket := Calibration.BucketOf(rows, k);
            && bucket.index == k
            && bucket.sampleSize == Calibration.TallyOf(Filter(rows, Calibration.InBucket(k))).SampleSize()
            && Calibration.BucketsUpTo(rows, k + 1)
               == Calibration.BucketsUpTo(rows, k) + if bucket.sampleSize == 0 then [] else [bucket]
  {
    hide Filter, Ratio, Calibration.TallyOf;
  }

  lemma DevianceSign(v: real, mean: real)
    ensures Deviance(mean)(v) >= 0.0
    ensures Deviance(mean)(v) == 0.0 <==> v == mean
  {
    SquareNonNegative(v - mean);
  }

  /** The spread is never negative, and zero exactly when all values are equal. */
  lemma SpreadMeaning(values: seq<real>)
    requires values != []
    ensures Spread(values) >= 0.0
    ensures Spread(values) == 0.0 <==> forall v :: v in values ==> v == values[0]
  {
    hide SumBy, Ratio, Times, Deviance;
    var mean := Mean(values);
    forall v: real
      ensures Deviance(mean)(v) >= 0.0 && (Deviance(mean)(v) == 0.0 <==> v == mean)
    {
      DevianceSign(v, mean);
    }
    SumNonNegative(values, Deviance(mean));
    RatioNonNegative(SumBy(values, Deviance(mean)), |values|);
    assert values[0] in values;
    if forall v :: v in values ==> v == values[0] {
      SumUniform(values, Itself(), values[0]);
      MeanOfEqual(SumBy(values, Itself()), |values|, values[0]);
      assert mean == values[0];
      SumUniform(values, Deviance(mean), 0.0);
      assert |values| as real * 0.0 == 0.0;
    }
  }

  lemma MeanOfEqual(total: real, n: nat, v: real)
    requires n > 0 && total == n as real * v
    ensures Ratio(total, n) == v
  {
  }

  /** Returns are perfectly stable exactly when there are some and they are all equal. */
  lemma {:induction false} StabilityMeaning(changes: seq<real>, root: real -> real)
    requires IsRoot(root)
    ensures Unit(Stability(changes, root))
    ensures Stability(changes, root) == 1.0 <==> changes != [] && forall v :: v in changes ==> v == changes[0]
  {
    hide Times, Spread;
    if |changes| >= 2 {
      SpreadMeaning(changes);
      var sd := root(Spread(changes));
      SquareNonNegative(sd);
      InverseRange(sd);
    }
  }

  lemma InverseRange(sd: real)
    requires sd >= 0.0
    ensures 0.0 < Inverse(1.0 + sd) <= 1.0
    ensures Inverse(1.0 + sd) == 1.0 <==> sd == 0.0
  {
    var q := 1.0 / (1.0 + sd);
    assert q * (1.0 + sd) == 1.0;
  }

  /** Every score of a bucket lies in [0, 1], and its decay never falls below a quarter. */
  lemma ScoresInRange(
    t: Calibration.Tally, changes: seq<real>, timestamps: seq<int>, now: int, lookbackDays: int, root: real -> real)
    requires IsRoot(root)
    ensures var s := ScoresOf(t, changes, timestamps, now, lookbackDays, root);
            && Unit(s.stability) && Unit(s.coverage) && Unit(s.reliability) && Unit(s.weight) && 0.25 <= s.decay <= 1.0
            && (s.weight == 1.0 <==> s.reliability == 1.0 && s.decay == 1.0)
  {
    hide Stability, Ratio, Times, SumBy;
    StabilityMeaning(changes, root);
    var s := ScoresOf(t, changes, timestamps, now, lookbackDays, root);
    ProductOfUnits(s.reliability, s.decay);
  }

  lemma NotNegative(u: real, v: real)
    requires u >= 0.0 && v >= 0.0
    ensures Times(u, v) >= 0.0
  {
  }

  lemma ProductOfUnits(u: real, v: real)
    requires Unit(u) && Unit(v)
    ensures Unit(Times(u, v))
    ensures Times(u, v) == 1.0 <==> u == 1.0 && v == 1.0
  {
    if u > 0.0 && v > 0.0 {
      ProductPositive(u, v);
    }
    assert Times(u, v) == u - Times(u, 1.0 - v) == v - Times(1.0 - u, v);
    NotNegative(u, 1.0 - v);
    NotNegative(1.0 - u, v);
  }

  /** Older rows never weigh more. */
  lemma DecayFalls(younger: real, older: real)
    requires younger <= older
    ensures Decay(older) <= Decay(younger)
    ensures Decay(older) == 0.25 <==> older >= 273.75
  {
  }

  // ----- What a bucket needs for full weight

  lemma {:induction false} ListedChanges(own: seq<Outcome>)
    ensures var changes := Calibration.ListedOf(own).changes;
            |changes| == |own| && forall i :: 0 <= i < |own| ==> changes[i] == Change()(own[i])
  {
    if own != [] {
      ListedChanges(own[..|own| - 1]);
    }
  }

  ghost predicate MovedAlike(own: seq<Outcome>) {
    forall r, q :: r in own && q in own ==> Change()(r) == Change()(q)
  }

  lemma SteadyExactlyWhen(own: seq<Outcome>, root: real -> real)
    requires own != [] && IsRoot(root)
    ensures Stability(Calibration.ListedOf(own).changes, root) == 1.0 <==> MovedAlike(own)
  {
    hide Stability, Calibration.ListedOf;
    var changes := Calibration.ListedOf(own).changes;
    ListedChanges(own);
    StabilityMeaning(changes, root);
    if MovedAlike(own) {
      forall v | v in changes
        ensures v == changes[0]
      {
        var i :| 0 <= i < |changes| && changes[i] == v;
        assert own[i] in own && own[0] in own;
      }
    }
    if forall v :: v in changes ==> v == changes[0] {
      forall r, q | r in own && q in own
        ensures Change()(r) == Change()(q)
      {
        var i :| 0 <= i < |own| && own[i] == r;
        var j :| 0 <= j < |own| && own[j] == q;
        assert changes[i] in changes && changes[j] in changes;
      }
    }
  }

  /** The rows' mean timestamp is not before the evaluation's time; without timestamps, there is no lookback. */
  predicate UpToDate(timestamps: seq<int>, now: int, lookbackDays: int) {
    if timestamps == [] then lookbackDays <= 0 else Ratio(SumBy(timestamps, Age()), |timestamps|) >= now as real
  }

  lemma FreshExactlyWhen(timestamps: seq<int>, now: int, lookbackDays: int)
    ensures TemporalDecay(timestamps, now, lookbackDays) == 1.0 <==> UpToDate(timestamps, now, lookbackDays)
  {
    hide Ratio, SumBy;
  }

  lemma {:induction false} AllWonExactlyWhen(own: seq<Outcome>)
    requires own != []
    ensures Ratio(|Filter(own, Won())| as real, |own|) == 1.0 <==> forall r :: r in own ==> Won()(r)
    ensures 0.0 <= Ratio(|Filter(own, Won())| as real, |own|) <= 1.0
  {
    FilterMembers(own, Won());
    ShareBounds(|Filter(own, Won())|, |own|);
    RatioSelf(|own|);
    RiskTuning.RatioEqual(|Filter(own, Won())|, |own|, |own|);
    Calibration.WinsAndLosses(own);
    hide Ratio;
    if forall r :: r in own ==> Won()(r) {
      FilterAll(own, Won());
    }
    if |Filter(own, Won())| == |own| {
      FilterMembers(own, Calibration.Lost());
      forall r | r in own
        ensures Won()(r)
      {
        assert !Calibration.Lost()(r);
      }
    }
  }

  /** A populated bucket weighs fully exactly when it holds thirty rows or more, all of them correct, with one and the
      same price change, and not older on average than the evaluation. */
  lemma {:induction false} FullWeightExactlyWhen(
    own: seq<Outcome>, now: int, lookbackDays: int, root: real -> real)
    requires own != [] && IsRoot(root)
    ensures ScoresFor(own, now, lookbackDays, root).weight == 1.0
       <==> |own| >= 30 && (forall r :: r in own ==> Won()(r)) && MovedAlike(own)
            && UpToDate(Calibration.ListedOf(own).timestamps, now, lookbackDays)
  {
    hide Stability, Ratio, Times, SumBy, Filter, TemporalDecay, Calibration.ListedOf, UpToDate;
    var listed := Calibration.ListedOf(own);
    Calibration.WinsAndLosses(own);
    AllWonExactlyWhen(own);
    SteadyExactlyWhen(own, root);
    StabilityMeaning(listed.changes, root);
    FreshExactlyWhen(listed.timestamps, now, lookbackDays);
    ScoresInRange(Calibration.TallyOf(own), listed.changes, listed.timestamps, now, lookbackDays, root);
  }
}
