/** Collection coverage: readiness of targets, per-source counters, their summary and the source's health. */
module Coverage {
  import opened Lists

  datatype Checks = Checks(
    active: bool, latestRunSuccess: bool, latestRawExists: bool, latestRawNormalized: bool, normalizedExists: bool,
    analyticsPendingZero: bool, freshnessOk: bool)
  {
    predicate Ready() {
      active && latestRunSuccess && latestRawExists && latestRawNormalized && normalizedExists && analyticsPendingZero
      && freshnessOk
    }
  }

  datatype Status = Candidate | Ready | Blocked

  datatype Row = Row(moduleName: string, source: string, checks: Checks, raws: nat, normalized: nat, analytics: nat)
  {
    function Key(): (string, string) {
      (moduleName, source)
    }

    function Status(): Status {
      if !checks.active then Candidate else if checks.Ready() then Ready else Blocked
    }
  }

  datatype Counters = Counters(
    targets: nat, active: nat, ready: nat, candidates: nat, raws: nat, normalized: nat, analytics: nat, blocked: nat,
    blockedActive: nat)
  {
    function Count(r: Row): Counters {
      Counters(
        targets + 1,
        active + if r.checks.active then 1 else 0,
        ready + if r.checks.Ready() then 1 else 0,
        candidates + if r.checks.active then 0 else 1,
        raws + r.raws,
        normalized + r.normalized,
        analytics + r.analytics,
        blocked + if r.Status() == Blocked then 1 else 0,
        blockedActive + if r.Status() == Blocked then 1 else 0)
    }

    function Plus(o: Counters): Counters {
      Counters(targets + o.targets, active + o.active, ready + o.ready, candidates + o.candidates, raws + o.raws,
               normalized + o.normalized, analytics + o.analytics, blocked + o.blocked, blockedActive + o.blockedActive)
    }
  }

  function Zero(): Counters {
    Counters(0, 0, 0, 0, 0, 0, 0, 0, 0)
  }

  function CountersOf(rows: seq<Row>): Counters {
    if rows == [] then Zero() else CountersOf(rows[..|rows| - 1]).Count(rows[|rows| - 1])
  }

  function InSource(key: (string, string)): Row -> bool {
    (r: Row) => r.Key() == key
  }

  function SourceKeys(rows: seq<Row>): set<(string, string)> {
    set r | r in rows :: r.Key()
  }

  function BySource(rows: seq<Row>): map<(string, string), Counters> {
    map k | k in SourceKeys(rows) :: CountersOf(Filter(rows, InSource(k)))
  }

  datatype Health = Ok | Standby | Attention

  function HealthOf(c: Counters): Health {
    if c.active > 0 && c.ready == c.active && c.blocked == 0 then Ok
    else if c.active == 0 && c.candidates > 0 then Standby
    else Attention
  }

  function IsActive(): Row -> bool {
    (r: Row) => r.checks.active
  }

  function IsReady(): Row -> bool {
    (r: Row) => r.checks.Ready()
  }

  datatype Summary = Summary(
    targets: nat, active: nat, readyActive: nat, candidates: int, blockedActive: int, raws: nat, normalized: nat,
    analytics: nat)

  lemma CountersSnoc(rows: seq<Row>, r: Row)
    ensures CountersOf(rows + [r]) == CountersOf(rows).Count(r)
  {
    assert (rows + [r])[..|rows|] == rows;
  }

  lemma BySourceSnoc(rows: seq<Row>, r: Row)
    ensures BySource(rows + [r])
         == BySource(rows)[r.Key() := (if r.Key() in BySource(rows) then BySource(rows)[r.Key()] else Zero()).Count(r)]
  {
    hide CountersOf, Counters.Count;
    assert SourceKeys(rows + [r]) == SourceKeys(rows) + {r.Key()};
    forall k | k in SourceKeys(rows + [r])
      ensures CountersOf(Filter(rows + [r], InSource(k)))
           == (if k == r.Key() then CountersOf(Filter(rows, InSource(k))).Count(r)
               else CountersOf(Filter(rows, InSource(k))))
    {
      FilterSnoc(rows, r, InSource(k));
      CountersSnoc(Filter(rows, InSource(k)), r);
    }
    if r.Key() !in SourceKeys(rows) {
      FilterNone(rows, InSource(r.Key()));
      NoCounters();
    }
  }

  lemma NoCounters()
    ensures CountersOf([]) == Zero()
  {
  }

  /** Aggregates the rows per source in one pass, and over all rows for the summary. */
  method CoveragePayload(rows: seq<Row>) returns (bySource: map<(string, string), Counters>, summary: Summary)
    ensures bySource == BySource(rows)
    ensures summary.targets == |rows| && summary.active == |Filter(rows, IsActive())|
    ensures summary.readyActive == |Filter(Filter(rows, IsActive()), IsReady())|
    ensures summary.candidates == |rows| - summary.active
        && summary.blockedActive == summary.active - summary.readyActive
    ensures summary.raws == CountersOf(rows).raws && summary.normalized == CountersOf(rows).normalized
      && summary.analytics == CountersOf(rows).analytics
  {
    hide BySource, Counters.Count;
    bySource := map[];
    var raws, normalized, analytics := 0, 0, 0;
    NoSources();
    NoCounters();
    for i := 0 to |rows|
      invariant bySource == BySource(rows[..i])
      invariant raws == CountersOf(rows[..i]).raws && normalized == CountersOf(rows[..i]).normalized
      invariant analytics == CountersOf(rows[..i]).analytics
    {
      var row := rows[i];
      assert rows[..i + 1] == rows[..i] + [row];
      BySourceSnoc(rows[..i], row);
      CountersSnoc(rows[..i], row);
      VolumesAdd(CountersOf(rows[..i]), row);
      var source := if row.Key() in bySource then bySource[row.Key()] else Zero();
      bySource := bySource[row.Key() := source.Count(row)];
      raws, normalized, analytics := raws + row.raws, normalized + row.normalized, analytics + row.analytics;
    }
    assert rows[..|rows|] == rows;
    var active := Filter(rows, IsActive());
    var ready := Filter(active, IsReady());
    summary := Summary(|rows|, |active|, |ready|, |rows| - |active|, |active| - |ready|, raws, normalized, analytics);
  }

  lemma VolumesAdd(c: Counters, r: Row)
    ensures c.Count(r).raws == c.raws + r.raws && c.Count(r).normalized == c.normalized + r.normalized
    ensures c.Count(r).analytics == c.analytics + r.analytics
  {
  }

  lemma NoSources()
    ensures BySource([]) == map[]
  {
  }

  // ----- Agreement

  /** What each counter counts; active targets are exactly the ready and the blocked ones. */
  lemma {:induction false} CountersMeaning(rows: seq<Row>)
    ensures var c := CountersOf(rows);
            && c.targets == |rows|
            && c.active == |Filter(rows, IsActive())|
            && c.ready == |Filter(rows, IsReady())| == |Filter(Filter(rows, IsActive()), IsReady())|
            && c.active == c.ready + c.blocked && c.blocked == c.blockedActive
            && c.targets == c.active + c.candidates
  {
    if rows != [] {
      var m := |rows| - 1;
      CountersMeaning(rows[..m]);
      if IsActive()(rows[m]) {
        FilterSnoc(Filter(rows[..m], IsActive()), rows[m], IsReady());
      }
    }
  }

  /** A reported source is ok exactly when it has an active target and all its active targets are ready, on standby
      exactly when it has no active target, and wants attention exactly when some active target is not ready. */
  lemma HealthMeaning(rows: seq<Row>, key: (string, string))
    requires key in SourceKeys(rows)
    ensures var own := Filter(rows, InSource(key));
            && (HealthOf(CountersOf(own)) == Ok
                <==> (exists r :: r in own && r.checks.active) && forall r :: r in own && r.checks.active ==>
                      r.checks.Ready())
            && (HealthOf(CountersOf(own)) == Standby <==> !exists r :: r in own && r.checks.active)
            && (HealthOf(CountersOf(own)) == Attention
               <==> exists r :: r in own && r.checks.active && !r.checks.Ready())
  {
    hide CountersOf;
    var own := Filter(rows, InSource(key));
    var r0 :| r0 in rows && r0.Key() == key;
    FilterMembers(rows, InSource(key));
    CountersMeaning(own);
    assert r0 in own;
    BlockedWhen(own);
    FilterMembers(own, IsActive());
    if Filter(own, IsActive()) != [] {
      assert Filter(own, IsActive())[0] in Filter(own, IsActive());
    }
  }

  lemma {:induction false} BlockedWhen(rows: seq<Row>)
    ensures CountersOf(rows).blocked > 0 <==> exists r :: r in rows && r.checks.active && !r.checks.Ready()
  {
    if rows != [] {
      var m := |rows| - 1;
      BlockedWhen(rows[..m]);
      assert rows == rows[..m] + [rows[m]];
      assert rows[m] in rows;
    }
  }

  function MergeSources(rows: seq<Row>, keys: seq<(string, string)>): Counters {
    if keys == [] then Zero()
    else MergeSources(rows, keys[..|keys| - 1]).Plus(CountersOf(Filter(rows, InSource(keys[|keys| - 1]))))
  }

  function InAny(keys: seq<(string, string)>): Row -> bool {
    (r: Row) => r.Key() in keys
  }

  lemma {:induction false} SplitCounters(rows: seq<Row>, p: Row -> bool, q: Row -> bool, either: Row -> bool)
    requires forall r :: either(r) == (p(r) || q(r)) && !(p(r) && q(r))
    ensures CountersOf(Filter(rows, either)) == CountersOf(Filter(rows, p)).Plus(CountersOf(Filter(rows, q)))
  {
    hide CountersOf, Counters.Count, Counters.Plus;
    if rows == [] {
      NoCounters();
      ZeroPlus(Zero());
    } else {
      var m := |rows| - 1;
      SplitCounters(rows[..m], p, q, either);
      CountersSnoc(Filter(rows[..m], p), rows[m]);
      CountersSnoc(Filter(rows[..m], q), rows[m]);
      CountersSnoc(Filter(rows[..m], either), rows[m]);
      CountPlus(CountersOf(Filter(rows[..m], p)), CountersOf(Filter(rows[..m], q)), rows[m]);
    }
  }

  lemma ZeroPlus(z: Counters)
    requires z == Zero()
    ensures z.Plus(z) == z
  {
  }

  lemma CountPlus(a: Counters, b: Counters, r: Row)
    ensures a.Plus(b).Count(r) == a.Count(r).Plus(b) == a.Plus(b.Count(r))
  {
  }

  lemma {:induction false} SourcesMerge(rows: seq<Row>, keys: seq<(string, string)>)
    requires forall i, j :: 0 <= i < j < |keys| ==> keys[i] != keys[j]
    ensures MergeSources(rows, keys) == CountersOf(Filter(rows, InAny(keys)))
  {
    hide CountersOf, Counters.Plus;
    if keys == [] {
      FilterNone(rows, InAny([]));
      NoCounters();
    } else {
      var m := |keys| - 1;
      SourcesMerge(rows, keys[..m]);
      assert keys == keys[..m] + [keys[m]];
      SplitCounters(rows, InAny(keys[..m]), InSource(keys[m]), InAny(keys));
    }
  }

  /** Every counter of the summary is the sum of that counter over the sources, listed once each in any order. */
  lemma {:induction false} SourcesSumToSummary(rows: seq<Row>, keys: seq<(string, string)>)
    requires forall i, j :: 0 <= i < j < |keys| ==> keys[i] != keys[j]
    requires forall k :: k in keys <==> k in SourceKeys(rows)
    ensures MergeSources(rows, keys) == CountersOf(rows)
  {
    hide CountersOf;
    SourcesMerge(rows, keys);
    assert forall r :: r in rows ==> r.Key() in SourceKeys(rows);
    FilterAll(rows, InAny(keys));
  }
}
