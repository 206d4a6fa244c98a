/** Out-of-sample observations of the alpha candidate, and their metrics by group and regime. */
module AlphaTracker {
  import opened Lists
  import opened Sorting

  const HORIZONS: seq<nat> := [6, 12, 24, 48, 72]

  /** One analytics row joined to its candle. */
  datatype Row = Row(
    analyticsId: string, calculatedAt: int, symbol: string, timeframe: string, candleAt: int,
    high: Option<real>, low: Option<real>, close: Option<real>,
    confidence: Option<real>, breakout: Option<real>, rsi: Option<real>, regime: Option<string>)

  type SeriesKey = (string, string)

  function KeyOf(r: Row): SeriesKey {
    (r.symbol, r.timeframe)
  }

  function InSeries(key: SeriesKey): Row -> bool {
    (r: Row) => KeyOf(r) == key
  }

  /** Ordered by candle time, then calculation time, then the id's text, as `le` compares texts. */
  function Earlier(le: (string, string) -> bool): (Row, Row) -> bool {
    (a: Row, b: Row) =>
      || a.candleAt < b.candleAt
      || (a.candleAt == b.candleAt
          && (a.calculatedAt < b.calculatedAt
             || (a.calculatedAt == b.calculatedAt && le(a.analyticsId, b.analyticsId))))
  }

  predicate Complete(r: Row) {
    r.confidence.Some? && r.breakout.Some? && r.rsi.Some? && r.close.Some?
  }

  predicate Baseline(r: Row)
    requires Complete(r)
  {
    r.rsi.value < 35.0 && r.confidence.value >= 55.0
  }

  predicate Alpha(r: Row)
    requires Complete(r)
  {
    Baseline(r) && r.confidence.value >= 89.0 && r.breakout.value >= 65.2625
  }

  /** Outcome, maximum favourable and maximum adverse excursion over one horizon, in percent of the entry. */
  datatype Excursion = Excursion(outcome: Option<real>, mfe: Option<real>, mae: Option<real>)

  datatype Observation = Observation(row: Row, baseline: bool, alpha: bool, excursions: seq<Excursion>)

  function PctReturn(exit: real, entry: real): real
    requires entry != 0.0
  {
    (exit - entry) / entry * 100.0
  }

  /** The largest recorded high, if any bar records one. */
  function Highest(bars: seq<Row>): Option<real> {
    if bars == [] then None else Higher(Highest(bars[..|bars| - 1]), bars[|bars| - 1].high)
  }

  function Lowest(bars: seq<Row>): Option<real> {
    if bars == [] then None else Lower(Lowest(bars[..|bars| - 1]), bars[|bars| - 1].low)
  }

  function Against(price: Option<real>, entry: real): Option<real>
    requires entry != 0.0
  {
    if price.Some? then Some(PctReturn(price.value, entry)) else None
  }

  /** The excursion over the next `horizon` rows; None when a zero entry price makes the division fail. */
  function Excurse(series: seq<Row>, idx: nat, horizon: nat, entry: real): Option<Excursion>
    requires idx < |series|
  {
    if |series| - (idx + 1) < horizon || horizon == 0 then Some(Excursion(None, None, None))
    else
      var future := series[idx + 1..idx + 1 + horizon];
      var close := future[horizon - 1].close;
      if entry == 0.0 then
        if close.None? && Highest(future).None? && Lowest(future).None? then Some(Excursion(None, None, None)) else None
      else Some(Excursion(Against(close, entry), Against(Highest(future), entry), Against(Lowest(future), entry)))
  }

  /** The excursions of the first `k` horizons. */
  function ExcurseAll(series: seq<Row>, idx: nat, entry: real, k: nat): Option<seq<Excursion>>
    requires idx < |series| && k <= |HORIZONS|
  {
    if k == 0 then Some([])
    else
      var before := ExcurseAll(series, idx, entry, k - 1);
      var last := Excurse(series, idx, HORIZONS[k - 1], entry);
      if before.None? || last.None? then None else Some(before.value + [last.value])
  }

  /** The running state of the scan; a failed scan reports nothing. */
  datatype Scan = Scan(seen: set<string>, observations: seq<Observation>, failed: bool)

  function ScanRow(st: Scan, series: seq<Row>, idx: nat, startAt: int): Scan
    requires idx < |series|
  {
    var row := series[idx];
    if st.failed || row.analyticsId in st.seen then st
    else
      var marked := st.(seen := st.seen + {row.analyticsId});
      if row.calculatedAt <= startAt || !Complete(row) || !Baseline(row) then marked
      else
        var excursions := ExcurseAll(series, idx, row.close.value, |HORIZONS|);
        if excursions.None? then marked.(failed := true)
        else marked.(observations := st.observations + [Observation(row, Baseline(row), Alpha(row), excursions.value)])
  }

  function ScanSeries(st: Scan, series: seq<Row>, k: nat, startAt: int): Scan
    requires k <= |series|
  {
    if k == 0 then st else ScanRow(ScanSeries(st, series, k - 1, startAt), series, k - 1, startAt)
  }

  function SeriesOf(rows: seq<Row>, key: SeriesKey, le: (string, string) -> bool): seq<Row> {
    Sort(Filter(rows, InSeries(key)), Earlier(le))
  }

  function ScanKeys(rows: seq<Row>, keys: seq<SeriesKey>, startAt: int, le: (string, string) -> bool): Scan {
    if keys == [] then Scan({}, [], false)
    else
      var series := SeriesOf(rows, keys[|keys| - 1], le);
      ScanSeries(ScanKeys(rows, keys[..|keys| - 1], startAt, le), series, |series|, startAt)
  }

  /** Series keys in order of first appearance. */
  function KeysInOrder(rows: seq<Row>): seq<SeriesKey> {
    if rows == [] then []
    else
      var before := KeysInOrder(rows[..|rows| - 1]);
      var key := KeyOf(rows[|rows| - 1]);
      if key in before then before else before + [key]
  }

  method GroupBySeries(rows: seq<Row>) returns (order: seq<SeriesKey>, bySeries: map<SeriesKey, seq<Row>>)
    ensures order == KeysInOrder(rows)
    ensures forall k :: k in order ==> k in bySeries && bySeries[k] == Filter(rows, InSeries(k))
  {
    order, bySeries := [], map[];
    for i := 0 to |rows|
      invariant order == KeysInOrder(rows[..i])
      invariant forall k :: k in bySeries <==> k in order
      invariant forall k :: k in bySeries ==> bySeries[k] == Filter(rows[..i], InSeries(k))
      invariant forall k :: k !in bySeries ==> Filter(rows[..i], InSeries(k)) == []
    {
      var key := KeyOf(rows[i]);
      assert rows[..i + 1] == rows[..i] + [rows[i]] && rows[..i + 1][..i] == rows[..i];
      forall k
        ensures Filter(rows[..i + 1], InSeries(k))
             == Filter(rows[..i], InSeries(k)) + if k == key then [rows[i]] else []
      {
        FilterSnoc(rows[..i], rows[i], InSeries(k));
      }
      if key !in bySeries {
        bySeries := bySeries[key := []];
        order := order + [key];
      }
      bySeries := bySeries[key := bySeries[key] + [rows[i]]];
    }
    assert rows[..|rows|] == rows;
  }

  /** The observations, or None when a zero entry price aborts the computation. */
  method ComputeObservations(
    rows: seq<Row>, startAt: int, le: (string, string) -> bool) returns (result: Option<seq<Observation>>)
    ensures var scan := ScanKeys(rows, KeysInOrder(rows), startAt, le);
            result == if scan.failed then None else Some(scan.observations)
  {
    hide ScanRow;
    var order, bySeries := GroupBySeries(rows);
    var st := Scan({}, [], false);
    for j := 0 to |order|
      invariant st == ScanKeys(rows, order[..j], startAt, le)
    {
      var series := Sort(bySeries[order[j]], Earlier(le));
      ghost var before := st;
      for idx := 0 to |series|
        invariant st == ScanSeries(before, series, idx, startAt)
      {
        st := ScanRow(st, series, idx, startAt);
      }
      assert order[..j + 1][..j] == order[..j];
    }
    assert order[..|order|] == order;
    result := if st.failed then None else Some(st.observations);
  }

  // ----- Excursions

  function Unavailable(): Excursion {
    Excursion(None, None, None)
  }

  /** A horizon's bars record something to measure: its last close, or some high or low. */
  ghost predicate Recorded(future: seq<Row>) {
    future != [] && (future[|future| - 1].close.Some? || exists r :: r in future && (r.high.Some? || r.low.Some?))
  }

  lemma {:induction false} ExtremesRecorded(bars: seq<Row>)
    ensures Highest(bars).Some? || Lowest(bars).Some? <==> exists r :: r in bars && (r.high.Some? || r.low.Some?)
  {
    if bars != [] {
      var m := |bars| - 1;
      ExtremesRecorded(bars[..m]);
      assert bars == bars[..m] + [bars[m]];
      assert bars[m] in bars;
    }
  }

  /** Nothing is measured, or the division by a zero entry fails, exactly when: the horizon is complete and recorded
      decides both. */
  lemma ExcurseExactlyWhen(series: seq<Row>, idx: nat, horizon: nat, entry: real)
    requires idx < |series| && horizon > 0
    ensures var measured := idx + horizon < |series| && Recorded(series[idx + 1..idx + 1 + horizon]);
            && (Excurse(series, idx, horizon, entry) == None <==> entry == 0.0 && measured)
            && (Excurse(series, idx, horizon, entry) == Some(Unavailable()) <==> !measured)
  {
    hide PctReturn;
    if idx + horizon < |series| {
      ExtremesRecorded(series[idx + 1..idx + 1 + horizon]);
    }
  }

  ghost predicate AtMost(a: Option<real>, b: Option<real>) {
    a.Some? ==> b.Some? && a.value <= b.value
  }

  lemma {:induction false} HighestGrows(bars: seq<Row>, k: nat)
    requires k <= |bars|
    ensures AtMost(Highest(bars[..k]), Highest(bars))
    ensures Lowest(bars[..k]).Some? ==> Lowest(bars).Some? && Lowest(bars).value <= Lowest(bars[..k]).value
  {
    if k == |bars| {
      assert bars[..k] == bars;
    } else {
      var m := |bars| - 1;
      HighestGrows(bars[..m], k);
      assert bars[..m][..k] == bars[..k];
    }
  }

  lemma PctMonotone(a: real, b: real, entry: real)
    requires entry > 0.0 && a <= b
    ensures PctReturn(a, entry) <= PctReturn(b, entry)
  {
    QuotientOrder(a - entry, b - entry, entry);
  }

  /** A bar whose prices are recorded and ordered. */
  predicate GoodBar(r: Row) {
    r.high.Some? && r.low.Some? && r.close.Some? && r.low.value <= r.close.value <= r.high.value
  }

  /** The outcome lies between the adverse and the favourable excursion whenever the horizon's last bar is good. */
  lemma OutcomeIsBracketed(series: seq<Row>, idx: nat, horizon: nat, entry: real)
    requires idx < |series| && horizon > 0 && entry > 0.0
    requires idx + horizon < |series| && GoodBar(series[idx + horizon])
    ensures var e := Excurse(series, idx, horizon, entry);
            && e.Some? && e.value.outcome.Some? && e.value.mae.Some? && e.value.mfe.Some?
            && e.value.mae.value <= e.value.outcome.value <= e.value.mfe.value
  {
    hide PctReturn;
    var future := series[idx + 1..idx + 1 + horizon];
    var last := future[horizon - 1];
    assert last == series[idx + horizon];
    PctMonotone(last.close.value, Highest(future).value, entry);
    PctMonotone(Lowest(future).value, last.close.value, entry);
  }

  /** Over a longer horizon the favourable excursion never falls and the adverse one never rises; a longer horizon is
      available only if the shorter one is, unless the shorter one's bars record nothing. */
  lemma ExcursionsWiden(series: seq<Row>, idx: nat, shorter: nat, longer: nat, entry: real)
    requires idx < |series| && 0 < shorter <= longer && entry > 0.0
    ensures var s, l := Excurse(series, idx, shorter, entry), Excurse(series, idx, longer, entry);
            && s.Some? && l.Some?
            && (l.value != Unavailable() && s.value == Unavailable() ==>
                  idx + shorter < |series| && !Recorded(series[idx + 1..idx + 1 + shorter]))
            && (idx + longer < |series| && s.value.mfe.Some?
               ==> l.value.mfe.Some? && s.value.mfe.value <= l.value.mfe.value)
            && (idx + longer < |series| && s.value.mae.Some?
               ==> l.value.mae.Some? && l.value.mae.value <= s.value.mae.value)
            && (idx + longer >= |series| ==> l.value == Unavailable())
  {
    hide PctReturn, Recorded;
    ExcurseExactlyWhen(series, idx, shorter, entry);
    if idx + longer < |series| {
      var future := series[idx + 1..idx + 1 + longer];
      assert series[idx + 1..idx + 1 + shorter] == future[..shorter];
      HighestGrows(future, shorter);
      if Highest(future[..shorter]).Some? {
        PctMonotone(Highest(future[..shorter]).value, Highest(future).value, entry);
      }
      if Lowest(future[..shorter]).Some? {
        PctMonotone(Lowest(future).value, Lowest(future[..shorter]).value, entry);
      }
    }
  }

  // ----- Observations

  /** An observation of a positive entry price: excursions per horizon, ordered, widening, available from the short
      end. */
  ghost predicate WellFormed(o: Observation) {
    && o.baseline && Complete(o.row) && o.baseline == Baseline(o.row) && o.alpha == Alpha(o.row)
    && |o.excursions| == |HORIZONS|
    && (o.row.close.value > 0.0 ==> forall i, j :: 0 <= i < j < |HORIZONS| ==> Widens(o.excursions[i], o.excursions[j]))
  }

  ghost predicate Widens(s: Excursion, l: Excursion) {
    && (l.mfe.Some? && s.mfe.Some? ==> s.mfe.value <= l.mfe.value)
    && (l.mae.Some? && s.mae.Some? ==> l.mae.value <= s.mae.value)
    && (l == Unavailable() || ((s.mfe.Some? ==> l.mfe.Some?) && (s.mae.Some? ==> l.mae.Some?)))
  }

  /** Wherever a horizon is available, so is every shorter one. */
  ghost predicate DownwardClosed(o: Observation) {
    forall i, j :: 0 <= i < j < |o.excursions| && o.excursions[j] != Unavailable() ==> o.excursions[i] != Unavailable()
  }

  ghost predicate Bracketed(o: Observation) {
    forall i :: 0 <= i < |o.excursions| ==>
      var e := o.excursions[i];
      e == Unavailable()
      || (e.outcome.Some? && e.mae.Some? && e.mfe.Some? && e.mae.value <= e.outcome.value <= e.mfe.value)
  }

  lemma {:induction false} ExcursionsListed(series: seq<Row>, idx: nat, entry: real, k: nat)
    requires idx < |series| && k <= |HORIZONS|
    requires ExcurseAll(series, idx, entry, k).Some?
    ensures var es := ExcurseAll(series, idx, entry, k).value;
            |es| == k && forall i :: 0 <= i < k ==> Excurse(series, idx, HORIZONS[i], entry) == Some(es[i])
  {
    hide Excurse;
    if k > 0 {
      ExcursionsListed(series, idx, entry, k - 1);
    }
  }

  lemma {:induction false} ObservationWellFormed(series: seq<Row>, idx: nat)
    requires idx < |series| && Complete(series[idx]) && Baseline(series[idx])
    requires ExcurseAll(series, idx, series[idx].close.value, |HORIZONS|).Some?
    ensures var row := series[idx];
            var o := Observation(row, Baseline(row), Alpha(row),
                ExcurseAll(series, idx, row.close.value, |HORIZONS|).value);
            && WellFormed(o)
            && (row.close.value > 0.0 && (forall r :: r in series ==> GoodBar(r)) ==> Bracketed(o) && DownwardClosed(o))
  {
    hide ExcurseAll, Excurse;
    var row, entry := series[idx], series[idx].close.value;
    var es := ExcurseAll(series, idx, entry, |HORIZONS|).value;
    ExcursionsListed(series, idx, entry, |HORIZONS|);
    if entry > 0.0 {
      forall i, j | 0 <= i < j < |HORIZONS|
        ensures Widens(es[i], es[j])
      {
        ExcursionsWiden(series, idx, HORIZONS[i], HORIZONS[j], entry);
      }
      if forall r :: r in series ==> GoodBar(r) {
        forall i | 0 <= i < |HORIZONS|
          ensures es[i] == Excursion(None, None, None)
               || (es[i].outcome.Some? && es[i].mae.Some? && es[i].mfe.Some?
                  && es[i].mae.value <= es[i].outcome.value <= es[i].mfe.value)
        {
          ExcursionsWiden(series, idx, HORIZONS[i], HORIZONS[i], entry);
          if idx + HORIZONS[i] < |series| {
            OutcomeIsBracketed(series, idx, HORIZONS[i], entry);
          }
        }
        forall i, j | 0 <= i < j < |HORIZONS| && es[j] != Unavailable()
          ensures es[i] != Unavailable()
        {
          ExcursionsWiden(series, idx, HORIZONS[i], HORIZONS[j], entry);
          OutcomeIsBracketed(series, idx, HORIZONS[i], entry);
        }
      }
    }
  }

  /** What every state of a scan over good or bad rows satisfies. */
  ghost predicate Sound(st: Scan, startAt: int, good: bool) {
    && (forall i :: 0 <= i < |st.observations| ==>
          && WellFormed(st.observations[i]) && st.observations[i].row.calculatedAt > startAt
          && st.observations[i].row.analyticsId in st.seen
          && (good ==> Bracketed(st.observations[i]) && DownwardClosed(st.observations[i])))
    && (forall i, j :: 0 <= i < j < |st.observations| ==>
          st.observations[i].row.analyticsId != st.observations[j].row.analyticsId)
  }

  lemma RowKeepsSound(st: Scan, series: seq<Row>, idx: nat, startAt: int, good: bool)
    requires idx < |series| && Sound(st, startAt, good)
    requires good ==> forall r :: r in series ==> GoodBar(r) && r.close.value > 0.0
    ensures Sound(ScanRow(st, series, idx, startAt), startAt, good)
  {
    hide ExcurseAll, WellFormed, Bracketed, DownwardClosed;
    var row := series[idx];
    if Complete(row) && Baseline(row) && ExcurseAll(series, idx, row.close.value, |HORIZONS|).Some? {
      ObservationWellFormed(series, idx);
    }
  }

  lemma {:induction false} SeriesKeepsSound(st: Scan, series: seq<Row>, k: nat, startAt: int, good: bool)
    requires k <= |series| && Sound(st, startAt, good)
    requires good ==> forall r :: r in series ==> GoodBar(r) && r.close.value > 0.0
    ensures Sound(ScanSeries(st, series, k, startAt), startAt, good)
  {
    hide Sound;
    if k > 0 {
      SeriesKeepsSound(st, series, k - 1, startAt, good);
      RowKeepsSound(ScanSeries(st, series, k - 1, startAt), series, k - 1, startAt, good);
    }
  }

  lemma SeriesMembers(rows: seq<Row>, key: SeriesKey, le: (string, string) -> bool)
    ensures forall r :: r in SeriesOf(rows, key, le) <==> r in rows && KeyOf(r) == key
  {
    SortPermutes(Filter(rows, InSeries(key)), Earlier(le));
    SameMembers(SeriesOf(rows, key, le), Filter(rows, InSeries(key)));
    FilterMembers(rows, InSeries(key));
  }

  /** For any rows: each analytics id is observed at most once, every observation is a baseline signal past the start
      (so the alpha group is part of the baseline group), and excursions widen with the horizon; on good bars with
      positive prices every outcome lies between MAE and MFE and availability is downward closed. */
  lemma {:induction false} ObservationsAreSound(
    rows: seq<Row>, keys: seq<SeriesKey>, startAt: int, le: (string, string) -> bool, good: bool)
    requires good ==> forall r :: r in rows ==> GoodBar(r) && r.close.value > 0.0
    ensures Sound(ScanKeys(rows, keys, startAt, le), startAt, good)
  {
    hide ScanSeries, WellFormed, Bracketed, DownwardClosed;
    if keys != [] {
      var m := |keys| - 1;
      var series := SeriesOf(rows, keys[m], le);
      ObservationsAreSound(rows, keys[..m], startAt, le, good);
      SeriesMembers(rows, keys[m], le);
      SeriesKeepsSound(ScanKeys(rows, keys[..m], startAt, le), series, |series|, startAt, good);
    }
  }

  // ----- No signal is missed

  /** A baseline signal calculated after the start. */
  ghost predicate Qualifies(r: Row, startAt: int) {
    r.calculatedAt > startAt && Complete(r) && Baseline(r)
  }

  ghost predicate Observed(st: Scan, r: Row) {
    exists i :: 0 <= i < |st.observations| && st.observations[i].row == r
  }

  /** A scan that has gone through exactly `scanned`. */
  ghost predicate Covers(st: Scan, scanned: set<Row>, startAt: int) {
    && (forall id :: id in st.seen ==> exists r :: r in scanned && r.analyticsId == id)
    && (!st.failed ==> forall r :: r in scanned && Qualifies(r, startAt) ==> Observed(st, r))
    && (forall i :: 0 <= i < |st.observations| ==>
         st.observations[i].row in scanned && Qualifies(st.observations[i].row, startAt))
  }

  function RowsOf(rows: seq<Row>): set<Row> {
    set r | r in rows
  }

  /** No two different rows carry the same id. */
  ghost predicate IdsIdentify(rows: set<Row>) {
    forall r, q :: r in rows && q in rows && r.analyticsId == q.analyticsId ==> r == q
  }

  lemma RowCovers(st: Scan, scanned: set<Row>, series: seq<Row>, idx: nat, startAt: int)
    requires idx < |series| && Covers(st, scanned, startAt) && IdsIdentify(scanned + {series[idx]})
    ensures Covers(ScanRow(st, series, idx, startAt), scanned + {series[idx]}, startAt)
  {
    hide ExcurseAll, Alpha;
    var row := series[idx];
    var next := ScanRow(st, series, idx, startAt);
    if !st.failed && row.analyticsId in st.seen {
      var r :| r in scanned && r.analyticsId == row.analyticsId;
      assert r in scanned + {row} && row in scanned + {row};
      assert scanned + {row} == scanned;
    } else if !next.failed {
      assert st.observations <= next.observations;
      forall r | r in scanned + {row} && Qualifies(r, startAt)
        ensures Observed(next, r)
      {
        if r == row {
          assert next.observations[|st.observations|].row == row;
        } else {
          var i :| 0 <= i < |st.observations| && st.observations[i].row == r;
          assert next.observations[i].row == r;
        }
      }
    }
  }

  lemma {:induction false} SeriesCovers(st: Scan, scanned: set<Row>, series: seq<Row>, k: nat, startAt: int)
    requires k <= |series| && Covers(st, scanned, startAt)
    requires IdsIdentify(scanned + RowsOf(series))
    ensures Covers(ScanSeries(st, series, k, startAt), scanned + RowsOf(series[..k]), startAt)
  {
    hide Covers;
    if k == 0 {
      assert scanned + RowsOf(series[..0]) == scanned;
    } else {
      var before := scanned + RowsOf(series[..k - 1]);
      SeriesCovers(st, scanned, series, k - 1, startAt);
      RowCovers(ScanSeries(st, series, k - 1, startAt), before, series, k - 1, startAt);
      assert series[..k] == series[..k - 1] + [series[k - 1]];
      assert before + {series[k - 1]} == scanned + RowsOf(series[..k]);
    }
  }

  lemma {:induction false} KeysCover(rows: seq<Row>, keys: seq<SeriesKey>, startAt: int, le: (string, string) -> bool)
    requires IdsIdentify(RowsOf(rows))
    ensures Covers(ScanKeys(rows, keys, startAt, le), (set r | r in rows && KeyOf(r) in keys), startAt)
  {
    hide Covers, ScanSeries, SeriesOf;
    if keys == [] {
      assert (set r | r in rows && KeyOf(r) in keys) == {};
      NothingCovered(startAt);
    } else {
      var m := |keys| - 1;
      var series := SeriesOf(rows, keys[m], le);
      var before := set r | r in rows && KeyOf(r) in keys[..m];
      KeysCover(rows, keys[..m], startAt, le);
      SeriesMembers(rows, keys[m], le);
      SeriesCovers(ScanKeys(rows, keys[..m], startAt, le), before, series, |series|, startAt);
      assert series[..|series|] == series && keys == keys[..m] + [keys[m]];
      assert before + RowsOf(series) == set r | r in rows && KeyOf(r) in keys;
    }
  }

  lemma NothingCovered(startAt: int)
    ensures Covers(Scan({}, [], false), {}, startAt)
  {
  }

  lemma {:induction false} EveryKeyListed(rows: seq<Row>)
    ensures forall r :: r in rows ==> KeyOf(r) in KeysInOrder(rows)
  {
    if rows != [] {
      var m := |rows| - 1;
      EveryKeyListed(rows[..m]);
      assert rows == rows[..m] + [rows[m]];
    }
  }

  /** A computation that is not aborted observes exactly the qualifying rows, each id naming one row. */
  lemma {:induction false} ExactlyQualifyingRowsObserved(rows: seq<Row>, startAt: int, le: (string, string) -> bool)
    requires IdsIdentify(RowsOf(rows))
    ensures var scan := ScanKeys(rows, KeysInOrder(rows), startAt, le);
            !scan.failed ==> forall r :: Observed(scan, r) <==> r in rows && Qualifies(r, startAt)
  {
    hide ScanKeys, KeysInOrder;
    EveryKeyListed(rows);
    KeysCover(rows, KeysInOrder(rows), startAt, le);
  }

  // ----- When the computation is aborted

  /** The row closes at zero and some complete horizon behind it records something. */
  ghost predicate Aborts(series: seq<Row>, idx: nat)
    requires idx < |series|
  {
    && series[idx].close == Some(0.0)
    && exists k :: 0 <= k < |HORIZONS| && MeasuredBehind(series, idx, HORIZONS[k])
  }

  ghost predicate MeasuredBehind(series: seq<Row>, idx: nat, horizon: nat) {
    idx + horizon < |series| && Recorded(series[idx + 1..idx + 1 + horizon])
  }

  lemma {:induction false} ExcurseAllFails(series: seq<Row>, idx: nat, entry: real, n: nat)
    requires idx < |series| && n <= |HORIZONS|
    ensures ExcurseAll(series, idx, entry, n).None?
      <==> entry == 0.0 && exists k :: 0 <= k < n && MeasuredBehind(series, idx, HORIZONS[k])
  {
    hide Excurse, MeasuredBehind;
    if n > 0 {
      ExcurseAllFails(series, idx, entry, n - 1);
      ExcurseMeasured(series, idx, HORIZONS[n - 1], entry);
    }
  }

  lemma ExcurseMeasured(series: seq<Row>, idx: nat, horizon: nat, entry: real)
    requires idx < |series| && horizon > 0
    ensures Excurse(series, idx, horizon, entry) == None <==> entry == 0.0 && MeasuredBehind(series, idx, horizon)
  {
    hide Recorded;
    ExcurseExactlyWhen(series, idx, horizon, entry);
  }

  /** Some row among the first `k` aborts the scan of its series. */
  ghost predicate AbortsWithin(series: seq<Row>, k: nat, startAt: int)
    requires k <= |series|
  {
    exists idx :: 0 <= idx < k && Qualifies(series[idx], startAt) && Aborts(series, idx)
  }

  lemma RowFails(st: Scan, series: seq<Row>, idx: nat, startAt: int)
    requires idx < |series|
    ensures ScanRow(st, series, idx, startAt).failed
        ==> st.failed || (Qualifies(series[idx], startAt) && Aborts(series, idx))
    ensures series[idx].analyticsId !in st.seen ==>
              (ScanRow(st, series, idx, startAt).failed
               <==> st.failed || (Qualifies(series[idx], startAt) && Aborts(series, idx)))
    ensures ScanRow(st, series, idx, startAt).seen <= st.seen + {series[idx].analyticsId}
  {
    hide ExcurseAll, MeasuredBehind, Alpha;
    if Complete(series[idx]) {
      ExcurseAllFails(series, idx, series[idx].close.value, |HORIZONS|);
    }
  }

  function IdsOf(rows: seq<Row>): set<string> {
    set r | r in rows :: r.analyticsId
  }

  /** No two rows carry the same id. */
  ghost predicate DistinctIds(rows: seq<Row>) {
    forall i, j :: 0 <= i < j < |rows| ==> rows[i].analyticsId != rows[j].analyticsId
  }

  lemma {:induction false} SeriesFails(st: Scan, series: seq<Row>, k: nat, startAt: int)
    requires k <= |series|
    ensures ScanSeries(st, series, k, startAt).failed ==> st.failed || AbortsWithin(series, k, startAt)
    ensures DistinctIds(series) && st.seen !! IdsOf(series) ==>
              (ScanSeries(st, series, k, startAt).failed <==> st.failed || AbortsWithin(series, k, startAt))
    ensures ScanSeries(st, series, k, startAt).seen <= st.seen + IdsOf(series[..k])
  {
    hide ScanRow, Aborts, Qualifies;
    if k > 0 {
      var before := ScanSeries(st, series, k - 1, startAt);
      SeriesFails(st, series, k - 1, startAt);
      assert DistinctIds(series) ==> series[k - 1].analyticsId !in IdsOf(series[..k - 1]);
      assert series[k - 1] in series && series[k - 1].analyticsId in IdsOf(series);
      RowFails(before, series, k - 1, startAt);
      assert series[..k] == series[..k - 1] + [series[k - 1]];
    }
  }

  lemma SeriesDistinct(rows: seq<Row>, key: SeriesKey, le: (string, string) -> bool)
    requires DistinctIds(rows)
    ensures DistinctIds(SeriesOf(rows, key, le))
  {
    var series := SeriesOf(rows, key, le);
    SeriesMembers(rows, key, le);
    SortPermutes(Filter(rows, InSeries(key)), Earlier(le));
    FilteredNoRepeats(rows, InSeries(key), series);
    forall i, j | 0 <= i < j < |series|
      ensures series[i].analyticsId != series[j].analyticsId
    {
      assert series[i] in rows && series[j] in rows && series[i] != series[j];
    }
  }

  /** Some series has a row that aborts it. */
  ghost predicate AbortsSomewhere(rows: seq<Row>, keys: seq<SeriesKey>, startAt: int, le: (string, string) -> bool) {
    exists key :: key in keys && AbortsWithin(SeriesOf(rows, key, le), |SeriesOf(rows, key, le)|, startAt)
  }

  lemma SeenElsewhere(
    st: Scan, rows: seq<Row>, keys: seq<SeriesKey>, key: SeriesKey, startAt: int, le: (string, string) -> bool)
    requires DistinctIds(rows) && key !in keys
    requires Covers(st, (set r | r in rows && KeyOf(r) in keys), startAt)
    ensures st.seen !! IdsOf(SeriesOf(rows, key, le))
  {
    SeriesMembers(rows, key, le);
    forall id | id in IdsOf(SeriesOf(rows, key, le))
      ensures id !in st.seen
    {
      var q :| q in SeriesOf(rows, key, le) && q.analyticsId == id;
      forall r | r in rows && KeyOf(r) in keys
        ensures r.analyticsId != id
      {
        assert q in rows && q != r;
      }
    }
  }

  lemma {:induction false} KeysFail(rows: seq<Row>, keys: seq<SeriesKey>, startAt: int, le: (string, string) -> bool)
    requires NoRepeats(keys)
    ensures ScanKeys(rows, keys, startAt, le).failed ==> AbortsSomewhere(rows, keys, startAt, le)
    ensures DistinctIds(rows) ==>
              (ScanKeys(rows, keys, startAt, le).failed <==> AbortsSomewhere(rows, keys, startAt, le))
  {
    hide ScanSeries, SeriesOf, AbortsWithin, Covers, DistinctIds;
    if keys != [] {
      var m := |keys| - 1;
      var before := ScanKeys(rows, keys[..m], startAt, le);
      var series := SeriesOf(rows, keys[m], le);
      KeysFail(rows, keys[..m], startAt, le);
      if DistinctIds(rows) {
        DistinctIdentify(rows);
        KeysCover(rows, keys[..m], startAt, le);
        SeenElsewhere(before, rows, keys[..m], keys[m], startAt, le);
        SeriesDistinct(rows, keys[m], le);
      }
      SeriesFails(before, series, |series|, startAt);
      assert keys == keys[..m] + [keys[m]];
    }
  }

  lemma DistinctIdentify(rows: seq<Row>)
    requires DistinctIds(rows)
    ensures IdsIdentify(RowsOf(rows))
  {
  }

  lemma {:induction false} KeysListedOnce(rows: seq<Row>)
    ensures NoRepeats(KeysInOrder(rows))
  {
    if rows != [] {
      KeysListedOnce(rows[..|rows| - 1]);
    }
  }

  /** The computation is aborted only if some qualifying row closes at zero and a complete horizon behind it, in its
      own series, records a last close or any high or low; and exactly then where ids are distinct. */
  lemma {:induction false} AbortedExactlyWhen(rows: seq<Row>, startAt: int, le: (string, string) -> bool)
    ensures var aborted := ScanKeys(rows, KeysInOrder(rows), startAt, le).failed;
            && (aborted ==> AbortsAt(rows, startAt, le))
            && (DistinctIds(rows) ==> (aborted <==> AbortsAt(rows, startAt, le)))
  {
    hide ScanKeys, SeriesOf, AbortsWithin, KeysInOrder, DistinctIds;
    KeysListedOnce(rows);
    KeysFail(rows, KeysInOrder(rows), startAt, le);
    KeysOccur(rows);
  }

  ghost predicate AbortsAt(rows: seq<Row>, startAt: int, le: (string, string) -> bool) {
    exists r :: r in rows && AbortsWithin(SeriesOf(rows, KeyOf(r), le), |SeriesOf(rows, KeyOf(r), le)|, startAt)
  }

  /** While no qualifying row closes at zero, nothing is aborted. */
  lemma NoZeroCloseNoAbort(rows: seq<Row>, startAt: int, le: (string, string) -> bool)
    requires forall r :: r in rows && Qualifies(r, startAt) ==> r.close != Some(0.0)
    ensures !ScanKeys(rows, KeysInOrder(rows), startAt, le).failed
  {
    hide ScanKeys, SeriesOf, KeysInOrder;
    AbortedExactlyWhen(rows, startAt, le);
    forall r | r in rows
      ensures !AbortsWithin(SeriesOf(rows, KeyOf(r), le), |SeriesOf(rows, KeyOf(r), le)|, startAt)
    {
      SeriesMembers(rows, KeyOf(r), le);
    }
  }

  lemma {:induction false} KeysOccur(rows: seq<Row>)
    ensures forall key :: key in KeysInOrder(rows) <==> exists r :: r in rows && KeyOf(r) == key
  {
    if rows != [] {
      var m := |rows| - 1;
      KeysOccur(rows[..m]);
      assert rows == rows[..m] + [rows[m]];
      assert rows[m] in rows;
    }
  }

  // ----- Metrics

  /** A missing regime is reported under its text form. */
  function RegimeName(o: Observation): string {
    if o.row.regime.Some? then o.row.regime.value else "None"
  }

  function InRegime(name: string): Observation -> bool {
    (o: Observation) => RegimeName(o) == name
  }

  function CountAll(obs: seq<Observation>, names: seq<string>): nat {
    if names == [] then 0 else CountAll(obs, names[..|names| - 1]) + |Filter(obs, InRegime(names[|names| - 1]))|
  }

  function InNames(names: seq<string>): Observation -> bool {
    (o: Observation) => RegimeName(o) in names
  }

  lemma {:induction false} CountEither(
    obs: seq<Observation>, p: Observation -> bool, q: Observation -> bool, either: Observation -> bool)
    requires forall o :: either(o) == (p(o) || q(o)) && !(p(o) && q(o))
    ensures |Filter(obs, either)| == |Filter(obs, p)| + |Filter(obs, q)|
  {
    if obs != [] {
      CountEither(obs[..|obs| - 1], p, q, either);
    }
  }

  lemma {:induction false} CountsMerge(obs: seq<Observation>, names: seq<string>)
    requires forall i, j :: 0 <= i < j < |names| ==> names[i] != names[j]
    ensures CountAll(obs, names) == |Filter(obs, InNames(names))|
  {
    if names == [] {
      FilterNone(obs, InNames([]));
    } else {
      var m := |names| - 1;
      CountsMerge(obs, names[..m]);
      assert names == names[..m] + [names[m]];
      CountEither(obs, InNames(names[..m]), InRegime(names[m]), InNames(names));
    }
  }

  /** The signal counts of a group's regimes, each listed once, sum to the group's count. */
  lemma {:induction false} RegimeCountsSum(obs: seq<Observation>, names: seq<string>)
    requires forall i, j :: 0 <= i < j < |names| ==> names[i] != names[j]
    requires forall o :: o in obs ==> RegimeName(o) in names
    ensures CountAll(obs, names) == |obs|
  {
    CountsMerge(obs, names);
    FilterAll(obs, InNames(names));
  }

  function OutcomeAt(h: nat): Observation -> real {
    (o: Observation) =>
      if h < |o.excursions| && o.excursions[h].outcome.Some? then o.excursions[h].outcome.value else 0.0
  }

  function HasOutcome(h: nat): Observation -> bool {
    (o: Observation) => h < |o.excursions| && o.excursions[h].outcome.Some?
  }

  function IsWin(h: nat): Observation -> bool {
    (o: Observation) => HasOutcome(h)(o) && OutcomeAt(h)(o) > 0.0
  }

  function IsLoss(h: nat): Observation -> bool {
    (o: Observation) => HasOutcome(h)(o) && OutcomeAt(h)(o) < 0.0
  }

  /** Division where the divisor cannot vanish: the losses summed are all negative. */
  function Quotient(a: real, b: real): Option<real> {
    if b == 0.0 then None else Some(a / b)
  }

  datatype Metrics = Metrics(n: nat, winRate: Option<real>, expectancy: Option<real>, profitFactor: Option<real>)

  function MetricOf(obs: seq<Observation>, h: nat): Metrics {
    var n := |Filter(obs, HasOutcome(h))|;
    var wins, losses := Filter(obs, IsWin(h)), Filter(obs, IsLoss(h));
    if n == 0 then Metrics(0, None, None, None)
    else
      var gain, loss := SumBy(wins, OutcomeAt(h)), SumBy(losses, OutcomeAt(h));
      Metrics(n, Some(Ratio(|wins| as real, n) * 100.0),
          Some(Ratio(SumBy(Filter(obs, HasOutcome(h)), OutcomeAt(h)), n)),
              if losses == [] then None
              else if wins == [] then Some(0.0)
              else Quotient(gain, if loss < 0.0 then -loss else loss))
  }

  lemma {:induction false} WinsAndLosses(obs: seq<Observation>, h: nat)
    ensures SumBy(Filter(obs, HasOutcome(h)), OutcomeAt(h))
         == SumBy(Filter(obs, IsWin(h)), OutcomeAt(h)) + SumBy(Filter(obs, IsLoss(h)), OutcomeAt(h))
    ensures SumBy(Filter(obs, IsWin(h)), OutcomeAt(h)) >= 0.0
    ensures Filter(obs, IsLoss(h)) != [] ==> SumBy(Filter(obs, IsLoss(h)), OutcomeAt(h)) < 0.0
    ensures SumBy(Filter(obs, IsLoss(h)), OutcomeAt(h)) <= 0.0
    ensures Filter(obs, HasOutcome(h)) == [] ==> Filter(obs, IsLoss(h)) == []
  {
    if obs != [] {
      var m := |obs| - 1;
      WinsAndLosses(obs[..m], h);
      SumSnoc(Filter(obs[..m], HasOutcome(h)), obs[m], OutcomeAt(h));
      SumSnoc(Filter(obs[..m], IsWin(h)), obs[m], OutcomeAt(h));
      SumSnoc(Filter(obs[..m], IsLoss(h)), obs[m], OutcomeAt(h));
    }
  }

  /** With any loss, the profit factor exceeds 1 exactly when the mean outcome is positive; without one it is absent. */
  lemma ProfitFactorMatchesExpectancy(obs: seq<Observation>, h: nat)
    ensures var m := MetricOf(obs, h);
            && (m.profitFactor.Some? <==> Filter(obs, IsLoss(h)) != [])
            && (m.profitFactor.Some? ==>
                  m.expectancy.Some? && (m.profitFactor.value > 1.0 <==> m.expectancy.value > 0.0))
  {
    hide Ratio;
    WinsAndLosses(obs, h);
    var gain, loss := SumBy(Filter(obs, IsWin(h)), OutcomeAt(h)), SumBy(Filter(obs, IsLoss(h)), OutcomeAt(h));
    if Filter(obs, IsLoss(h)) != [] {
      AboveOne(gain, -loss);
      RatioPositive(gain + loss, |Filter(obs, HasOutcome(h))|);
    }
  }

  lemma AboveOne(a: real, b: real)
    requires b > 0.0
    ensures a / b > 1.0 <==> a > b
  {
    QuotientOrder(a, b, b);
    QuotientOrder(b, a, b);
  }

  lemma RatioPositive(a: real, n: nat)
    requires n > 0
    ensures Ratio(a, n) > 0.0 <==> a > 0.0
  {
    QuotientOrder(a, 0.0, n as real);
  }
}
