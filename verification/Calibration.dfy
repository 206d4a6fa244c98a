/** Confidence calibration: bucketed outcomes, realised win rates and the calibration slope. */
module Calibration {
  import opened Lists
  import opened Outcomes
  import opened LeastSquares

  const BUCKETS: nat := 5

  function Lower(k: nat): int {
    if k == 0 then 0 else 20 * k + 1
  }

  function Upper(k: nat): int {
    20 * k + 20
  }

  const CALIBRATED_WIN_RATE: real := 0.55
  const OVERCONFIDENCE_GAP: real := -0.10
  const UNDERCONFIDENCE_GAP: real := 0.10

  /** The rows the calibration query selects. */
  function Calibratable(): Outcome -> bool {
    (r: Outcome) => r.correct.Some? && r.confidence.Some? && r.priceChange.Some?
  }

  function InBucket(k: nat): Outcome -> bool {
    (r: Outcome) => r.confidence.Some? && Lower(k) <= r.confidence.value <= Upper(k)
  }

  function InRange(): Outcome -> bool {
    (r: Outcome) => r.confidence.Some? && 0 <= r.confidence.value <= 100
  }

  function Confidence(): Outcome -> real {
    (r: Outcome) => if r.confidence.Some? then r.confidence.value as real else 0.0
  }

  function Lost(): Outcome -> bool {
    (r: Outcome) => r.correct != Some(true)
  }

  /** What a bucket accumulator holds. */
  datatype Tally = Tally(confidenceSum: real, wins: nat, losses: nat, returnSum: real)
  {
    function SampleSize(): nat {
      wins + losses
    }

    function Add(confidence: int, correct: bool, change: real): Tally {
      Tally(confidenceSum + confidence as real,
            if correct then wins + 1 else wins,
            if correct then losses else losses + 1,
            returnSum + change)
    }
  }

  /** The totals of a set of rows, independent of how they were accumulated. */
  function TallyOf(rows: seq<Outcome>): Tally {
    Tally(SumBy(rows, Confidence()), |Filter(rows, Won())|, |Filter(rows, Lost())|, SumBy(rows, Change()))
  }

  lemma TallySnoc(rows: seq<Outcome>, r: Outcome)
    requires Calibratable()(r)
    ensures TallyOf(rows + [r]) == TallyOf(rows).Add(r.confidence.value, r.correct.value, r.priceChange.value)
  {
    SumSnoc(rows, r, Confidence());
    SumSnoc(rows, r, Change());
    FilterSnoc(rows, r, Won());
    FilterSnoc(rows, r, Lost());
  }

  /** What a bucket accumulator lists. */
  datatype Listed = Listed(changes: seq<real>, timestamps: seq<int>)
  {
    function Add(change: real, at: Option<int>): Listed {
      Listed(changes + [change], timestamps + if at.Some? then [at.value] else [])
    }
  }

  /** The price changes of a set of rows, and the timestamps of those that have one, in order. */
  function ListedOf(rows: seq<Outcome>): Listed {
    if rows == [] then Listed([], [])
    else
      var r := rows[|rows| - 1];
      ListedOf(rows[..|rows| - 1]).Add(Change()(r), RowTimestamp(r))
  }

  /** One bucket's accumulator, updated row by row. */
  class BucketAcc {
    var confidenceSum: real
    var wins: nat
    var losses: nat
    var changes: seq<real>
    var evidence: seq<string>
    var timestamps: seq<int>

    /** The figures of the bucket; its return sum is the sum of the returns listed. */
    ghost function View(): Tally
      reads this
    {
      Tally(confidenceSum, wins, losses, SumBy(changes, Itself()))
    }

    ghost function Lists(): Listed
      reads this
    {
      Listed(changes, timestamps)
    }

    /** One return is listed for each row counted. */
    ghost predicate Valid()
      reads this
    {
      |changes| == wins + losses
    }

    constructor ()
      ensures Valid() && View() == TallyOf([]) && Lists() == ListedOf([])
      ensures evidence == []
    {
      confidenceSum, wins, losses, changes, evidence, timestamps := 0.0, 0, 0, [], [], [];
    }

    method Add(confidence: int, correct: bool, change: real, id: Option<string>, rowTimestamp: Option<int>)
      requires Valid()
      modifies this
      ensures Valid() && View() == old(View()).Add(confidence, correct, change)
      ensures Lists() == old(Lists()).Add(change, rowTimestamp)
      ensures evidence == old(evidence) + if id.Some? && id.value != "" then [id.value] else []
    {
      confidenceSum := confidenceSum + confidence as real;
      SumSnoc(changes, change, Itself());
      changes := changes + [change];
      if id.Some? && id.value != "" {
        evidence := evidence + [id.value];
      }
      if rowTimestamp.Some? {
        timestamps := timestamps + [rowTimestamp.value];
      }
      if correct {
        wins := wins + 1;
      } else {
        losses := losses + 1;
      }
    }
  }

  /** One populated bucket; `index` stands for its label. */
  datatype Bucket = Bucket(
    index: nat, lower: int, upper: int, sampleSize: nat, predicted: real, realized: real, gap: real, avgReturn: real,
    falsePositiveRate: real, overconfident: bool, underconfident: bool)

  function MakeBucket(k: nat, t: Tally): Bucket {
    var n := t.SampleSize();
    var predicted := Ratio(t.confidenceSum, n);
    var realized := Ratio(t.wins as real, n);
    var gap := realized - predicted / 100.0;
    Bucket(k, Lower(k), Upper(k), n, predicted, realized, gap, Ratio(t.returnSum, n), Ratio(t.losses as real, n),
           gap < OVERCONFIDENCE_GAP, gap > UNDERCONFIDENCE_GAP)
  }

  function BucketOf(rows: seq<Outcome>, k: nat): Bucket {
    MakeBucket(k, TallyOf(Filter(rows, InBucket(k))))
  }

  function BucketsOf(rows: seq<Outcome>): nat -> Bucket {
    (k: nat) => BucketOf(rows, k)
  }

  /** The populated buckets among the first `k`, in bucket order. */
  function Populated(bucket: nat -> Bucket, k: nat): seq<Bucket> {
    if k == 0 then []
    else if bucket(k - 1).sampleSize == 0 then Populated(bucket, k - 1)
    else Populated(bucket, k - 1) + [bucket(k - 1)]
  }

  function BucketsUpTo(rows: seq<Outcome>, k: nat): seq<Bucket> {
    Populated(BucketsOf(rows), k)
  }

  function BucketPoint(b: Bucket): Point {
    Point(b.predicted, b.realized)
  }

  function Points(buckets: seq<Bucket>): (ps: seq<Point>)
    ensures |ps| == |buckets|
    ensures forall i :: 0 <= i < |ps| ==> ps[i] == BucketPoint(buckets[i])
  {
    if buckets == [] then [] else Points(buckets[..|buckets| - 1]) + [BucketPoint(buckets[|buckets| - 1])]
  }

  function LowerThreshold(threshold: Option<int>, b: Bucket): Option<int> {
    if b.realized >= CALIBRATED_WIN_RATE && (threshold.None? || b.lower < threshold.value) then Some(b.lower)
    else threshold
  }

  function Threshold(buckets: seq<Bucket>): Option<int> {
    if buckets == [] then None
    else LowerThreshold(Threshold(buckets[..|buckets| - 1]), buckets[|buckets| - 1])
  }

  function TotalSamples(buckets: seq<Bucket>): nat {
    if buckets == [] then 0 else TotalSamples(buckets[..|buckets| - 1]) + buckets[|buckets| - 1].sampleSize
  }

  datatype Result = Result(
    evaluatedAt: int, total: nat, buckets: seq<Bucket>, threshold: Option<int>, slope: Option<real>,
    wellCalibrated: bool, overconfidence: bool, underconfidence: bool)

  function Summarise(evaluatedAt: int, buckets: seq<Bucket>): Result {
    var slope := Slope(Points(buckets));
    var over := exists i :: 0 <= i < |buckets| && buckets[i].overconfident;
    var under := exists i :: 0 <= i < |buckets| && buckets[i].underconfident;
    Result(evaluatedAt, TotalSamples(buckets), buckets, Threshold(buckets), slope,
           slope.Some? && slope.value > 0.0 && !over, over, under)
  }

  /** The calibration of the rows of one window. */
  function Calibrate(evaluatedAt: int, rows: seq<Outcome>): Result {
    Summarise(evaluatedAt, BucketsUpTo(rows, BUCKETS))
  }

  /** The rows an evaluation looks at. */
  function Selected(all: seq<Outcome>, ctx: Context, lookbackDays: int): seq<Outcome> {
    Window(Filter(all, Calibratable()), ctx, lookbackDays)
  }

  // ----- The accumulation loops

  /** A bucket's totals after it has been offered a row. */
  function Offered(t: Tally, k: nat, row: Outcome): Tally
    requires Calibratable()(row)
  {
    if InBucket(k)(row) then t.Add(row.confidence.value, row.correct.value, row.priceChange.value) else t
  }

  function OfferedList(t: Listed, k: nat, row: Outcome): Listed {
    if InBucket(k)(row) then t.Add(Change()(row), RowTimestamp(row)) else t
  }

  /** Offers one row to the buckets in order; the first match takes it. */
  method AddToBucket(accs: seq<BucketAcc>, row: Outcome)
    requires |accs| == BUCKETS && forall i, j :: 0 <= i < j < |accs| ==> accs[i] != accs[j]
    requires forall k :: 0 <= k < BUCKETS ==> accs[k].Valid()
    requires Calibratable()(row)
    modifies accs
    ensures forall k :: 0 <= k < BUCKETS ==> accs[k].Valid()
    ensures forall k :: 0 <= k < BUCKETS ==> accs[k].View() == Offered(old(accs[k].View()), k, row)
    ensures forall k :: 0 <= k < BUCKETS ==> accs[k].Lists() == OfferedList(old(accs[k].Lists()), k, row)
  {
    var conf := row.confidence.value;
    for k := 0 to BUCKETS
      invariant forall j :: 0 <= j < k ==> !InBucket(j)(row)
      invariant forall j :: 0 <= j < BUCKETS ==> accs[j].Valid() && accs[j].View() == old(accs[j].View())
      invariant forall j :: 0 <= j < BUCKETS ==> accs[j].Lists() == old(accs[j].Lists())
    {
      if Lower(k) <= conf <= Upper(k) {
        accs[k].Add(conf, row.correct.value, row.priceChange.value, row.id, RowTimestamp(row));
        return;
      }
    }
  }

  /** Each accumulator holds the totals and the lists of the rows in its range. */
  ghost predicate Accumulated(accs: seq<BucketAcc>, rows: seq<Outcome>)
    reads accs
  {
    |accs| == BUCKETS && forall k :: 0 <= k < BUCKETS ==>
      && accs[k].Valid() && accs[k].View() == TallyOf(Filter(rows, InBucket(k)))
      && accs[k].Lists() == ListedOf(Filter(rows, InBucket(k)))
  }

  /** The accumulators of the rows. */
  method Accumulate(rows: seq<Outcome>) returns (accs: seq<BucketAcc>)
    requires forall r :: r in rows ==> Calibratable()(r)
    ensures Accumulated(accs, rows) && fresh(accs)
  {
    hide TallyOf, ListedOf, Filter;
    accs := [];
    for k := 0 to BUCKETS
      invariant |accs| == k && fresh(accs) && forall i, j :: 0 <= i < j < |accs| ==> accs[i] != accs[j]
      invariant forall j :: 0 <= j < k ==>
            accs[j].Valid() && accs[j].View() == TallyOf([]) && accs[j].Lists() == ListedOf([])
    {
      var acc := new BucketAcc();
      accs := accs + [acc];
    }
    NothingAccumulated();
    for i := 0 to |rows|
      invariant Accumulated(accs, rows[..i])
    {
      AddToBucket(accs, rows[i]);
      forall k | 0 <= k < BUCKETS
        ensures accs[k].View() == TallyOf(Filter(rows[..i + 1], InBucket(k)))
        ensures accs[k].Lists() == ListedOf(Filter(rows[..i + 1], InBucket(k)))
      {
        OfferedSnoc(rows, i, k);
      }
    }
    assert rows[..|rows|] == rows;
  }

  lemma NothingAccumulated()
    ensures forall k: nat :: Filter([], InBucket(k)) == []
  {
  }

  lemma OfferedSnoc(rows: seq<Outcome>, i: nat, k: nat)
    requires i < |rows| && Calibratable()(rows[i])
    ensures TallyOf(Filter(rows[..i + 1], InBucket(k))) == Offered(TallyOf(Filter(rows[..i], InBucket(k))), k, rows[i])
    ensures ListedOf(Filter(rows[..i + 1], InBucket(k)))
         == OfferedList(ListedOf(Filter(rows[..i], InBucket(k))), k, rows[i])
  {
    hide TallyOf, Filter;
    assert rows[..i + 1] == rows[..i] + [rows[i]];
    var own := Filter(rows[..i], InBucket(k));
    FilterSnoc(rows[..i], rows[i], InBucket(k));
    TallySnoc(own, rows[i]);
    assert (own + [rows[i]])[..|own|] == own;
  }

  /** Turns the accumulators into populated buckets, their total and the calibrated threshold. */
  method BuildBuckets(accs: seq<BucketAcc>, ghost rows: seq<Outcome>)
    returns (buckets: seq<Bucket>, threshold: Option<int>, total: nat)
    requires Accumulated(accs, rows)
    ensures buckets == BucketsUpTo(rows, BUCKETS)
    ensures threshold == Threshold(buckets) && total == TotalSamples(buckets)
  {
    buckets, threshold, total := [], None, 0;
    for k := 0 to BUCKETS
      invariant buckets == BucketsUpTo(rows, k)
      invariant threshold == Threshold(buckets) && total == TotalSamples(buckets)
    {
      var acc := accs[k];
      if acc.wins + acc.losses != 0 {
        var b := MakeBucket(k, Tally(acc.confidenceSum, acc.wins, acc.losses, SumBy(acc.changes, Itself())));
        assert b == BucketOf(rows, k);
        assert (buckets + [b])[..|buckets|] == buckets;
        buckets := buckets + [b];
        threshold := LowerThreshold(threshold, b);
        total := total + b.sampleSize;
      }
    }
  }

  method Evaluate(all: seq<Outcome>, lookbackDays: int, given: Option<Context>, digest: Digest) returns (result: Result)
    ensures var ctx := DeriveContext(Filter(all, Calibratable()), lookbackDays, given, digest);
            result == Calibrate(ctx.timestamp, Selected(all, ctx, lookbackDays))
  {
    hide Filter, DeriveContext, BucketsUpTo, Slope, Points, Threshold, TotalSamples;
    var eligible := Filter(all, Calibratable());
    var ctx := DeriveContext(eligible, lookbackDays, given, digest);
    var rows := FilterRowsForContext(eligible, ctx, lookbackDays);
    FilterMembers(all, Calibratable());
    FilterMembers(eligible, InWindow(ctx.timestamp, lookbackDays));
    var accs := Accumulate(rows);
    var buckets, threshold, total := BuildBuckets(accs, rows);
    var slope := Slope(Points(buckets));
    var over := exists i :: 0 <= i < |buckets| && buckets[i].overconfident;
    var under := exists i :: 0 <= i < |buckets| && buckets[i].underconfident;
    var well := slope.Some? && slope.value > 0.0 && !over;
    result := Result(ctx.timestamp, total, buckets, threshold, slope, well, over, under);
  }

  // ----- What the calibration of any rows satisfies

  lemma WinsAndLosses(rows: seq<Outcome>)
    ensures TallyOf(rows).SampleSize() == |rows|
  {
    FilterPartition(rows, Won(), Lost());
  }

  ghost predicate WithinBucket(b: Bucket) {
    && b.lower == Lower(b.index) && b.upper == Upper(b.index)
    && b.lower as real <= b.predicted <= b.upper as real
    && 0.0 <= b.realized <= 1.0
    && b.sampleSize > 0
  }

  /** A populated bucket's averages lie in its own ranges. */
  lemma {:induction false} BucketAverages(rows: seq<Outcome>, k: nat)
    ensures BucketOf(rows, k).sampleSize == |Filter(rows, InBucket(k))|
    ensures BucketOf(rows, k).index == k
    ensures BucketOf(rows, k).sampleSize > 0 ==> WithinBucket(BucketOf(rows, k))
  {
    var s := Filter(rows, InBucket(k));
    WinsAndLosses(s);
    FilterMembers(rows, InBucket(k));
    if s != [] {
      MeanBounds(s, Confidence(), Lower(k) as real, Upper(k) as real);
      ShareBounds(TallyOf(s).wins, |s|);
    }
  }

  /** Bucket ranges that ascend without overlap, all below index `k`. */
  ghost predicate Ascending(bs: seq<Bucket>, k: nat) {
    && (forall i :: 0 <= i < |bs| ==> WithinBucket(bs[i]) && bs[i].index < k)
    && (forall i, j :: 0 <= i < j < |bs| ==> bs[i].upper < bs[j].lower)
  }

  lemma {:induction false} PopulatedAscend(bucket: nat -> Bucket, k: nat)
    requires forall j: nat :: bucket(j).index == j
    requires forall j: nat :: bucket(j).sampleSize > 0 ==> WithinBucket(bucket(j))
    ensures Ascending(Populated(bucket, k), k)
  {
    if k > 0 {
      PopulatedAscend(bucket, k - 1);
    }
  }

  /** Populated buckets come in ascending, disjoint ranges. */
  lemma BucketsAscend(rows: seq<Outcome>, k: nat)
    ensures Ascending(BucketsUpTo(rows, k), k)
  {
    forall j: nat
      ensures BucketsOf(rows)(j).index == j
      ensures BucketsOf(rows)(j).sampleSize > 0 ==> WithinBucket(BucketsOf(rows)(j))
    {
      BucketAverages(rows, j);
    }
    PopulatedAscend(BucketsOf(rows), k);
  }

  lemma PointsAscend(rows: seq<Outcome>)
    ensures StrictlyAscendingX(Points(BucketsUpTo(rows, BUCKETS)))
  {
    BucketsAscend(rows, BUCKETS);
    var bs := BucketsUpTo(rows, BUCKETS);
    var ps := Points(bs);
    forall i, j | 0 <= i < j < |ps|
      ensures ps[i].x < ps[j].x
    {
      assert bs[i].upper < bs[j].lower;
      assert ps[i] == BucketPoint(bs[i]) && ps[j] == BucketPoint(bs[j]);
    }
  }

  /** The slope exists exactly when at least two buckets are populated. */
  lemma {:induction false} SlopeNeedsTwoBuckets(evaluatedAt: int, rows: seq<Outcome>)
    ensures var c := Calibrate(evaluatedAt, rows);
            c.slope.Some? <==> |c.buckets| >= 2
  {
    var ps := Points(BucketsUpTo(rows, BUCKETS));
    PointsAscend(rows);
    SlopeDefined(ps);
    if |ps| >= 2 {
      assert ps[0] in ps && ps[1] in ps && ps[0].x != ps[1].x;
    }
  }

  ghost predicate WinRatesNeverFall(bs: seq<Bucket>) {
    forall i, j :: 0 <= i < j < |bs| ==> bs[i].realized <= bs[j].realized
  }

  /** Win rates that never fall with confidence give a slope >= 0, and > 0 unless all agree. */
  lemma {:induction false} MonotoneCalibrationSlope(evaluatedAt: int, rows: seq<Outcome>)
    ensures var c := Calibrate(evaluatedAt, rows);
            |c.buckets| >= 2 && WinRatesNeverFall(c.buckets) ==>
              && c.slope.Some? && c.slope.value >= 0.0
              && (c.slope.value > 0.0 <==> c.buckets[0].realized < c.buckets[|c.buckets| - 1].realized)
  {
    hide Slope, Threshold, TotalSamples, BucketsUpTo;
    var bs := BucketsUpTo(rows, BUCKETS);
    if |bs| >= 2 && WinRatesNeverFall(bs) {
      var ps := Points(bs);
      PointsAscend(rows);
      forall i, j | 0 <= i < j < |ps|
        ensures ps[i].y <= ps[j].y
      {
        assert bs[i].realized <= bs[j].realized;
        assert ps[i] == BucketPoint(bs[i]) && ps[j] == BucketPoint(bs[j]);
      }
      assert ps[0] == BucketPoint(bs[0]) && ps[|bs| - 1] == BucketPoint(bs[|bs| - 1]);
      SlopeSign(ps);
    }
  }

  lemma {:induction false} GapsDecide(bucket: nat -> Bucket, k: nat)
    requires forall j: nat :: bucket(j).overconfident <==>
          bucket(j).realized - bucket(j).predicted / 100.0 < OVERCONFIDENCE_GAP
    ensures forall b :: b in Populated(bucket, k) ==>
              (b.overconfident <==> b.realized - b.predicted / 100.0 < OVERCONFIDENCE_GAP)
  {
    if k > 0 {
      GapsDecide(bucket, k - 1);
    }
  }

  /** Well calibrated is exactly a positive slope over at least two buckets, none of them overconfident. */
  lemma {:induction false} WellCalibratedExactlyWhen(evaluatedAt: int, rows: seq<Outcome>)
    ensures var c := Calibrate(evaluatedAt, rows);
            c.wellCalibrated <==>
              && |c.buckets| >= 2 && c.slope.Some? && c.slope.value > 0.0
              && forall b :: b in c.buckets ==> b.realized - b.predicted / 100.0 >= OVERCONFIDENCE_GAP
  {
    hide Ratio, Slope, TotalSamples, Threshold;
    SlopeNeedsTwoBuckets(evaluatedAt, rows);
    GapsDecide(BucketsOf(rows), BUCKETS);
    var buckets := BucketsUpTo(rows, BUCKETS);
    forall b | b in buckets && Calibrate(evaluatedAt, rows).wellCalibrated
      ensures !b.overconfident
    {
      var i :| 0 <= i < |buckets| && buckets[i] == b;
    }
    forall i | 0 <= i < |buckets|
      ensures buckets[i] in buckets
    {
    }
  }

  /** Every row with a confidence in 0..100 is counted in exactly one bucket; others in none. */
  lemma {:induction false} SamplesConserved(evaluatedAt: int, rows: seq<Outcome>)
    ensures Calibrate(evaluatedAt, rows).total == |Filter(rows, InRange())|
  {
    SamplesUpTo(rows, BUCKETS);
    FilterCongruent(rows, Below(BUCKETS), InRange());
  }

  function Below(k: nat): Outcome -> bool {
    (r: Outcome) => k > 0 && r.confidence.Some? && 0 <= r.confidence.value <= Upper(k - 1)
  }

  lemma TotalSnoc(bs: seq<Bucket>, b: Bucket)
    ensures TotalSamples(bs + [b]) == TotalSamples(bs) + b.sampleSize
  {
    assert (bs + [b])[..|bs|] == bs;
  }

  lemma PopulatedTotal(bucket: nat -> Bucket, k: nat)
    requires k > 0
    ensures TotalSamples(Populated(bucket, k)) == TotalSamples(Populated(bucket, k - 1)) + bucket(k - 1).sampleSize
  {
    TotalSnoc(Populated(bucket, k - 1), bucket(k - 1));
  }

  lemma {:induction false} SamplesUpTo(rows: seq<Outcome>, k: nat)
    ensures TotalSamples(BucketsUpTo(rows, k)) == |Filter(rows, Below(k))|
  {
    hide *;
    if k == 0 {
      NothingBelow(rows);
    } else {
      SamplesUpTo(rows, k - 1);
      DisjointCounts(rows, k - 1);
      BucketSize(rows, k - 1);
      UpToTotal(rows, k);
    }
  }

  lemma NothingBelow(rows: seq<Outcome>)
    ensures TotalSamples(BucketsUpTo(rows, 0)) == |Filter(rows, Below(0))| == 0
  {
    FilterNone(rows, Below(0));
  }

  lemma BucketSize(rows: seq<Outcome>, k: nat)
    ensures BucketsOf(rows)(k).sampleSize == |Filter(rows, InBucket(k))|
  {
    BucketAverages(rows, k);
  }

  lemma UpToTotal(rows: seq<Outcome>, k: nat)
    requires k > 0
    ensures TotalSamples(BucketsUpTo(rows, k))
        == TotalSamples(BucketsUpTo(rows, k - 1)) + BucketsOf(rows)(k - 1).sampleSize
  {
    PopulatedTotal(BucketsOf(rows), k);
  }

  lemma {:induction false} DisjointCounts(rows: seq<Outcome>, k: nat)
    ensures |Filter(rows, Below(k + 1))| == |Filter(rows, Below(k))| + |Filter(rows, InBucket(k))|
  {
    if rows != [] {
      DisjointCounts(rows[..|rows| - 1], k);
    }
  }

  /** The threshold is the lowest populated bucket that wins at the calibrated rate. */
  lemma {:induction false} ThresholdIsLowest(buckets: seq<Bucket>)
    ensures var t := Threshold(buckets);
            && (t.None? <==> forall b :: b in buckets ==> b.realized < CALIBRATED_WIN_RATE)
            && (t.Some? ==> exists b :: b in buckets && b.realized >= CALIBRATED_WIN_RATE && b.lower == t.value)
            && (forall b :: b in buckets && b.realized >= CALIBRATED_WIN_RATE ==> t.Some? && t.value <= b.lower)
  {
    if buckets != [] {
      var m := |buckets| - 1;
      ThresholdIsLowest(buckets[..m]);
      assert buckets == buckets[..m] + [buckets[m]];
      assert buckets[m] in buckets;
    }
  }

  // ----- Determinism

  lemma TallyPermutation(s: seq<Outcome>, t: seq<Outcome>)
    requires multiset(s) == multiset(t)
    ensures TallyOf(s) == TallyOf(t)
  {
    SumPermutation(s, t, Confidence());
    SumPermutation(s, t, Change());
    FilterPermutation(s, t, Won());
    FilterPermutation(s, t, Lost());
  }

  lemma {:induction false} BucketsPermutation(s: seq<Outcome>, t: seq<Outcome>, k: nat)
    requires multiset(s) == multiset(t)
    ensures BucketsUpTo(s, k) == BucketsUpTo(t, k)
  {
    if k > 0 {
      BucketsPermutation(s, t, k - 1);
      FilterPermutation(s, t, InBucket(k - 1));
      TallyPermutation(Filter(s, InBucket(k - 1)), Filter(t, InBucket(k - 1)));
    }
  }

  /** The whole evaluation, derived context included, ignores the order of the table. */
  lemma {:induction false} CalibrationIgnoresRowOrder(
    s: seq<Outcome>, t: seq<Outcome>, lookbackDays: int, given: Option<Context>, digest: Digest)
    requires multiset(s) == multiset(t) && digest.Valid()
    ensures var ctxS := DeriveContext(Filter(s, Calibratable()), lookbackDays, given, digest);
            var ctxT := DeriveContext(Filter(t, Calibratable()), lookbackDays, given, digest);
            Calibrate(ctxS.timestamp, Selected(s, ctxS, lookbackDays))
                == Calibrate(ctxT.timestamp, Selected(t, ctxT, lookbackDays))
  {
    var fs, ft := Filter(s, Calibratable()), Filter(t, Calibratable());
    FilterPermutation(s, t, Calibratable());
    ContextIgnoresRowOrder(fs, ft, lookbackDays, given, digest);
    var ctx := DeriveContext(fs, lookbackDays, given, digest);
    FilterPermutation(fs, ft, InWindow(ctx.timestamp, lookbackDays));
    BucketsPermutation(Selected(s, ctx, lookbackDays), Selected(t, ctx, lookbackDays), BUCKETS);
  }

  /** Under a given context, rows outside the window have no influence. */
  lemma {:induction false} CalibrationIgnoresOutsideRows(
    a: seq<Outcome>, outside: seq<Outcome>, b: seq<Outcome>, ctx: Context, lookbackDays: int)
    requires forall r :: r in outside ==> !InWindow(ctx.timestamp, lookbackDays)(r)
    ensures Calibrate(ctx.timestamp, Selected(a + outside + b, ctx, lookbackDays))
         == Calibrate(ctx.timestamp, Selected(a + b, ctx, lookbackDays))
  {
    OutsideRowsIgnored(a, outside, b, ctx, lookbackDays, Calibratable());
  }
}
