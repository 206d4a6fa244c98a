/** Run life cycle, target locks, the stale-run sweep and the source-level circuit breaker, over shared tables. */
module Breaker {
  import opened Lists
  import opened Sorting
  import opened Tables
  import opened DefaultTargets

  const MINUTE: int := 60_000_000

  /** Runs recorded under this source lock the targets of every source. */
  const SHARED_SOURCE: string := "poupi_legacy"

  datatype Db = Db(runs: seq<Run>, targets: seq<Target>, errors: seq<ErrorRow>)

  // ----- Circuit check

  function Terminal(moduleName: string, source: string): Run -> bool {
    (r: Run) => r.moduleName == Some(moduleName) && r.source == Some(source)
        && (r.status == Success || r.status == Failed)
  }

  /** ORDER BY finished_at DESC NULLS LAST. */
  predicate FinishedFirst(a: Run, b: Run) {
    b.finishedAt.None? || (a.finishedAt.Some? && a.finishedAt.value >= b.finishedAt.value)
  }

  /** What the query for a pair's finished runs may return: all of them, latest first, ties in any order. */
  predicate IsHistory(history: seq<Run>, runs: seq<Run>, moduleName: string, source: string) {
    multiset(history) == multiset(Filter(runs, Terminal(moduleName, source))) && Sorted(history, FinishedFirst)
  }

  /** One answer of that query. */
  function History(runs: seq<Run>, moduleName: string, source: string): seq<Run> {
    Sort(Filter(runs, Terminal(moduleName, source)), FinishedFirst)
  }

  function Recent(history: seq<Run>, threshold: nat): seq<Run> {
    if |history| <= threshold then history else history[..threshold]
  }

  predicate IsOpen(e: ErrorRow, source: string) {
    e.name == source && e.kind == CircuitOpen && e.resolvedAt.None?
  }

  predicate HasOpen(errors: seq<ErrorRow>, source: string) {
    exists i :: 0 <= i < |errors| && IsOpen(errors[i], source)
  }

  predicate Of(t: Target, moduleName: string, source: string) {
    t.moduleName == moduleName && t.source == source
  }

  function Switched(t: Target, moduleName: string, source: string, flag: bool): Target {
    if Of(t, moduleName, source) then t.(active := flag) else t
  }

  /** All targets of a pair switched on or off. */
  function Switch(targets: seq<Target>, moduleName: string, source: string, flag: bool): (r: seq<Target>)
    ensures |r| == |targets|
  {
    seq(|targets|, i requires 0 <= i < |targets| => Switched(targets[i], moduleName, source, flag))
  }

  /** The pair's targets a switch changes. */
  function Differs(moduleName: string, source: string, flag: bool): Target -> bool {
    (t: Target) => Of(t, moduleName, source) && t.active != flag
  }

  function OpenError(moduleName: string, source: string): ErrorRow {
    ErrorRow(source, CircuitOpen, Some(moduleName), None, None)
  }

  datatype Checked = Checked(db: Db, tripped: bool)

  /** A check whose query answers with `history`, of which only the first `threshold` runs are read. */
  function Check(db: Db, moduleName: string, source: string, threshold: nat, history: seq<Run>): Checked {
    var recent := Recent(history, threshold);
    if |recent| < threshold || (exists i :: 0 <= i < |recent| && recent[i].status != Failed)
        || HasOpen(db.errors, source)
    then Checked(db, false)
    else Checked(db.(targets := Switch(db.targets, moduleName, source, false),
                     errors := db.errors + [OpenError(moduleName, source)]), true)
  }

  function ManualOpen(db: Db, moduleName: string, source: string): Db {
    db.(targets := Switch(db.targets, moduleName, source, false), errors := db.errors + [OpenError(moduleName, source)])
  }

  function ResolveOpen(errors: seq<ErrorRow>, source: string, now: int): (r: seq<ErrorRow>)
    ensures |r| == |errors|
  {
    seq(|errors|, i requires 0 <= i < |errors| =>
      if IsOpen(errors[i], source) then errors[i].(resolvedAt := Some(now)) else errors[i])
  }

  function Reopen(db: Db, moduleName: string, source: string, now: int): Db {
    db.(targets := Switch(db.targets, moduleName, source, true),
        errors := ResolveOpen(db.errors, source, now)
                  + [ErrorRow(source, CircuitReopened, Some(moduleName), None, None)])
  }

  /** Resolving an unknown error is a 404 and changes nothing. */
  function Resolve(db: Db, error: nat, now: int): Db {
    if error < |db.errors| then db.(errors := db.errors[error := db.errors[error].(resolvedAt := Some(now))]) else db
  }

  // ----- Run life cycle

  function Start(db: Db, collector: string, moduleName: Option<string>, source: Option<string>, now: int): Db {
    db.(runs := db.runs + [Run(collector, moduleName, source, Running, Some(now), None)])
  }

  /** The worker's own success or failure overwrites whatever status its run has. */
  function Finish(db: Db, run: nat, success: bool, now: int): Db {
    if run >= |db.runs| then db
    else if success then db.(runs := db.runs[run := db.runs[run].(status := Success, finishedAt := Some(now))])
    else db.(runs := db.runs[run := db.runs[run].(status := Failed, finishedAt := Some(now))],
             errors := db.errors + [ErrorRow(db.runs[run].collector, CollectorFailure, None, Some(run), None)])
  }

  predicate IsStale(r: Run, now: int, ttl: int) {
    r.status == Running && r.startedAt.Some? && r.startedAt.value < now - ttl * MINUTE
  }

  function Reaped(r: Run, now: int, ttl: int): Run {
    if IsStale(r, now, ttl) then r.(status := Failed, finishedAt := Some(now)) else r
  }

  function ReapedRuns(runs: seq<Run>, now: int, ttl: int): (r: seq<Run>)
    ensures |r| == |runs|
  {
    seq(|runs|, i requires 0 <= i < |runs| => Reaped(runs[i], now, ttl))
  }

  /** One timeout error per stale run, in table order. */
  function TimeoutErrors(runs: seq<Run>, now: int, ttl: int): seq<ErrorRow> {
    if runs == [] then []
    else
      var k := |runs| - 1;
      var rest := TimeoutErrors(runs[..k], now, ttl);
      if IsStale(runs[k], now, ttl) then rest + [ErrorRow(runs[k].collector, StaleRunTimeout, None, Some(k), None)]
      else rest
  }

  function Sweep(db: Db, now: int, ttl: int): Db {
    db.(runs := ReapedRuns(db.runs, now, ttl), errors := db.errors + TimeoutErrors(db.runs, now, ttl))
  }

  /** The pairs that must be checked after a sweep: those of stale runs that carry both names. */
  function FailedSources(runs: seq<Run>, now: int, ttl: int): set<(string, string)> {
    set r | r in runs && IsStale(r, now, ttl) && r.moduleName.Some? && r.moduleName.value != "" && r.source.Some?
        && r.source.value != ""
      :: (r.moduleName.value, r.source.value)
  }

  const THRESHOLD: nat := 5

  /** One check per pair, in order, each with its own answer of the query. */
  function CheckInOrder(db: Db, pairs: seq<(string, string)>, histories: seq<seq<Run>>): Db
    requires |pairs| == |histories|
  {
    if pairs == [] then db
    else
      var k := |pairs| - 1;
      Check(CheckInOrder(db, pairs[..k], histories[..k]), pairs[k].0, pairs[k].1, THRESHOLD, histories[k]).db
  }

  // ----- The store

  class Store {
    var runs: seq<Run>
    var targets: seq<Target>
    var errors: seq<ErrorRow>

    ghost function View(): Db
      reads this
    {
      Db(runs, targets, errors)
    }

    method SwitchTargets(moduleName: string, source: string, flag: bool) returns (changed: nat)
      modifies this`targets
      ensures targets == Switch(old(targets), moduleName, source, flag)
      ensures changed == |Filter(old(targets), Differs(moduleName, source, flag))|
    {
      hide Filter;
      changed := 0;
      ghost var before := targets;
      FilterNone(before[..0], Differs(moduleName, source, flag));
      for i := 0 to |targets|
        invariant |targets| == |before|
        invariant forall j :: i <= j < |before| ==> targets[j] == before[j]
        invariant forall j :: 0 <= j < i ==> targets[j] == Switched(before[j], moduleName, source, flag)
        invariant changed == |Filter(before[..i], Differs(moduleName, source, flag))|
      {
        assert before[..i + 1] == before[..i] + [before[i]];
        FilterSnoc(before[..i], before[i], Differs(moduleName, source, flag));
        if Of(targets[i], moduleName, source) && targets[i].active != flag {
          targets := targets[i := targets[i].(active := flag)];
          changed := changed + 1;
        }
      }
      assert before[..|before|] == before;
    }

    method CheckSourceCircuit(moduleName: string, source: string, threshold: nat)
      returns (tripped: bool, ghost history: seq<Run>)
      modifies this
      ensures IsHistory(history, old(runs), moduleName, source)
      ensures Checked(View(), tripped) == Check(old(View()), moduleName, source, threshold, history)
    {
      hide History;
      HistoryFacts(runs, moduleName, source);
      history := History(runs, moduleName, source);
      var recent := Recent(History(runs, moduleName, source), threshold);
      if |recent| < threshold {
        tripped := false;
        return;
      }
      for i := 0 to |recent|
        invariant forall j :: 0 <= j < i ==> recent[j].status == Failed
      {
        if recent[i].status != Failed {
          tripped := false;
          return;
        }
      }
      if HasOpen(errors, source) {
        tripped := false;
        return;
      }
      var _ := SwitchTargets(moduleName, source, false);
      errors := errors + [OpenError(moduleName, source)];
      tripped := true;
    }

    method ReopenSourceCircuit(moduleName: string, source: string, now: int) returns (reactivated: nat)
      modifies this
      ensures View() == Reopen(old(View()), moduleName, source, now)
      ensures reactivated == |Filter(old(targets), Differs(moduleName, source, true))|
    {
      reactivated := SwitchTargets(moduleName, source, true);
      ghost var before := errors;
      for i := 0 to |errors|
        invariant |errors| == |before| && View() == old(View()).(targets := targets, errors := errors)
        invariant targets == Switch(old(targets), moduleName, source, true)
        invariant forall j :: i <= j < |before| ==> errors[j] == before[j]
        invariant forall j :: 0 <= j < i ==> errors[j] == ResolveOpen(before, source, now)[j]
      {
        if IsOpen(errors[i], source) {
          errors := errors[i := errors[i].(resolvedAt := Some(now))];
        }
      }
      assert errors == ResolveOpen(before, source, now);
      errors := errors + [ErrorRow(source, CircuitReopened, Some(moduleName), None, None)];
    }

    method OpenCircuit(moduleName: string, source: string) returns (deactivated: nat)
      modifies this
      ensures View() == ManualOpen(old(View()), moduleName, source)
      ensures deactivated == |Filter(old(targets), Differs(moduleName, source, false))|
    {
      deactivated := SwitchTargets(moduleName, source, false);
      errors := errors + [OpenError(moduleName, source)];
    }

    /** An unknown id is answered with 404. */
    method ResolveError(error: nat, now: int) returns (found: bool)
      modifies this`errors
      ensures View() == Resolve(old(View()), error, now)
      ensures found == (error < |old(errors)|)
    {
      found := error < |errors|;
      if found {
        errors := errors[error := errors[error].(resolvedAt := Some(now))];
      }
    }

    method StartRun(collector: string, moduleName: Option<string>, source: Option<string>, now: int) returns (run: nat)
      modifies this`runs
      ensures View() == Start(old(View()), collector, moduleName, source, now)
      ensures run == |old(runs)|
    {
      run := |runs|;
      runs := runs + [Run(collector, moduleName, source, Running, Some(now), None)];
    }

    /** The end of a collector's run, whatever was done to the run in the meantime. */
    method FinishRun(run: nat, success: bool, now: int)
      requires run < |runs|
      modifies this
      ensures View() == Finish(old(View()), run, success, now)
    {
      runs := runs[run := runs[run].(status := if success then Success else Failed, finishedAt := Some(now))];
      if !success {
        errors := errors + [ErrorRow(runs[run].collector, CollectorFailure, None, Some(run), None)];
      }
    }

    /** Marks stale runs failed and collects their sources. */
    method MarkStaleRuns(now: int, ttl: int) returns (failedSources: set<(string, string)>)
      modifies this
      ensures View() == Sweep(old(View()), now, ttl)
      ensures failedSources == FailedSources(old(runs), now, ttl)
    {
      hide FailedSources, TimeoutErrors;
      ghost var before := View();
      failedSources := {};
      NothingSwept(now, ttl);
      for i := 0 to |runs|
        invariant |runs| == |before.runs| && targets == before.targets
        invariant forall j :: i <= j < |runs| ==> runs[j] == before.runs[j]
        invariant forall j :: 0 <= j < i ==> runs[j] == Reaped(before.runs[j], now, ttl)
        invariant errors == before.errors + TimeoutErrors(before.runs[..i], now, ttl)
        invariant failedSources == FailedSources(before.runs[..i], now, ttl)
      {
        SweepSnoc(before.runs, i, now, ttl);
        var run := runs[i];
        if IsStale(run, now, ttl) {
          runs := runs[i := run.(status := Failed, finishedAt := Some(now))];
          errors := errors + [ErrorRow(run.collector, StaleRunTimeout, None, Some(i), None)];
          if run.moduleName.Some? && run.moduleName.value != "" && run.source.Some? && run.source.value != "" {
            failedSources := failedSources + {(run.moduleName.value, run.source.value)};
          }
        }
      }
      assert before.runs[..|runs|] == before.runs;
      assert runs == ReapedRuns(before.runs, now, ttl);
    }

    /** Marks stale runs failed, then checks the circuit of each of their sources, in some order. */
    method CleanupStaleRuns(now: int, ttl: int)
      returns (ghost order: seq<(string, string)>, ghost histories: seq<seq<Run>>)
      modifies this
      ensures forall p :: p in order <==> p in FailedSources(old(runs), now, ttl)
      ensures forall i, j :: 0 <= i < j < |order| ==> order[i] != order[j]
      ensures |histories| == |order|
      ensures forall i :: 0 <= i < |order| ==> IsHistory(histories[i], runs, order[i].0, order[i].1)
      ensures View() == CheckInOrder(Sweep(old(View()), now, ttl), order, histories)
    {
      hide Sweep, FailedSources, Check, IsHistory;
      var failedSources := MarkStaleRuns(now, ttl);
      ghost var swept := View();
      order, histories := [], [];
      var todo := failedSources;
      while todo != {}
        invariant forall p :: p in failedSources <==> p in order || p in todo
        invariant forall p :: p in order ==> p !in todo
        invariant forall i, j :: 0 <= i < j < |order| ==> order[i] != order[j]
        invariant |histories| == |order| && runs == swept.runs
        invariant forall i :: 0 <= i < |order| ==> IsHistory(histories[i], runs, order[i].0, order[i].1)
        invariant View() == CheckInOrder(swept, order, histories)
        decreases |todo|
      {
        var p :| p in todo;
        todo := todo - {p};
        ghost var before := View();
        var _, h := CheckSourceCircuit(p.0, p.1, THRESHOLD);
        CheckKeepsRuns(before, p.0, p.1, THRESHOLD, h);
        assert (order + [p])[..|order|] == order && (histories + [h])[..|order|] == histories;
        order, histories := order + [p], histories + [h];
      }
    }
  }

  lemma CheckKeepsRuns(db: Db, moduleName: string, source: string, threshold: nat, history: seq<Run>)
    ensures Check(db, moduleName, source, threshold, history).db.runs == db.runs
  {
  }

  lemma NothingSwept(now: int, ttl: int)
    ensures TimeoutErrors([], now, ttl) == [] && FailedSources([], now, ttl) == {}
  {
  }

  lemma SweepSnoc(runs: seq<Run>, i: nat, now: int, ttl: int)
    requires i < |runs|
    ensures TimeoutErrors(runs[..i + 1], now, ttl) == TimeoutErrors(runs[..i], now, ttl)
         + if IsStale(runs[i], now, ttl) then [ErrorRow(runs[i].collector, StaleRunTimeout, None, Some(i), None)]
           else []
    ensures FailedSources(runs[..i + 1], now, ttl) == FailedSources(runs[..i], now, ttl)
         + if IsStale(runs[i], now, ttl) && runs[i].moduleName.Some? && runs[i].moduleName.value != ""
              && runs[i].source.Some? && runs[i].source.value != ""
           then {(runs[i].moduleName.value, runs[i].source.value)} else {}
  {
    assert runs[..i + 1][..i] == runs[..i];
    FailedSourcesSnoc(runs[..i], runs[i], now, ttl);
    assert runs[..i + 1] == runs[..i] + [runs[i]];
  }

  lemma FailedSourcesSnoc(runs: seq<Run>, r: Run, now: int, ttl: int)
    ensures FailedSources(runs + [r], now, ttl) == FailedSources(runs, now, ttl) + FailedSources([r], now, ttl)
    ensures FailedSources([r], now, ttl)
         == if IsStale(r, now, ttl) && r.moduleName.Some? && r.moduleName.value != "" && r.source.Some?
             && r.source.value != ""
            then {(r.moduleName.value, r.source.value)} else {}
  {
    assert r in [r];
    assert forall x :: x in runs + [r] <==> x in runs || x == r;
  }

  // ----- What a check decides

  /** The number of failures before the first success in a history. */
  function Streak(history: seq<Run>): nat {
    if history == [] || history[0].status != Failed then 0 else 1 + Streak(history[1..])
  }

  lemma {:induction false} StreakPrefix(h: seq<Run>)
    ensures Streak(h) <= |h|
    ensures forall i :: 0 <= i < Streak(h) ==> h[i].status == Failed
    ensures Streak(h) < |h| ==> h[Streak(h)].status != Failed
  {
    if h != [] && h[0].status == Failed {
      StreakPrefix(h[1..]);
      assert forall i :: 1 <= i < |h| ==> h[i] == h[1..][i - 1];
    }
  }

  /** Whatever the query answers, a check opens exactly when the trailing failure streak of the whole history
      reaches the threshold and no error is open under the source name. */
  lemma CheckOpensExactlyWhen(db: Db, moduleName: string, source: string, threshold: nat, history: seq<Run>)
    ensures Check(db, moduleName, source, threshold, history).tripped
      <==> Streak(history) >= threshold && !HasOpen(db.errors, source)
  {
    StreakPrefix(history);
  }

  /** Failures finished strictly after every success. */
  function ClearlyTrailing(h: seq<Run>): Run -> bool {
    (r: Run) => r.status == Failed && forall g | g in h :: g.status == Success ==> !FinishedFirst(g, r)
  }

  /** Failures finished no earlier than any success. */
  function PossiblyTrailing(h: seq<Run>): Run -> bool {
    (r: Run) => r.status == Failed && forall g | g in h :: g.status == Success ==> FinishedFirst(r, g)
  }

  lemma HistoryFacts(runs: seq<Run>, moduleName: string, source: string)
    ensures IsHistory(History(runs, moduleName, source), runs, moduleName, source)
  {
    assert TotalPreorder(FinishedFirst);
    SortCorrect(Filter(runs, Terminal(moduleName, source)), FinishedFirst);
  }

  lemma HistoryMembers(history: seq<Run>, runs: seq<Run>, moduleName: string, source: string)
    requires IsHistory(history, runs, moduleName, source)
    ensures forall r :: r in history <==> r in Filter(runs, Terminal(moduleName, source))
    ensures forall r :: r in history ==> r.status == Success || r.status == Failed
  {
    SameMembers(history, Filter(runs, Terminal(moduleName, source)));
    FilterMembers(runs, Terminal(moduleName, source));
  }

  /** However ties are broken, the streak counts the failures finished after the last success. */
  lemma StreakMeaning(h: seq<Run>, runs: seq<Run>, moduleName: string, source: string)
    requires IsHistory(h, runs, moduleName, source)
    ensures var f := Filter(runs, Terminal(moduleName, source));
            |Filter(f, ClearlyTrailing(f))| <= Streak(h) <= |Filter(f, PossiblyTrailing(f))|
  {
    hide Terminal, Filter;
    var f := Filter(runs, Terminal(moduleName, source));
    HistoryMembers(h, runs, moduleName, source);
    StreakPrefix(h);
    AfterStreakNotTrailing(f, h, Streak(h));
    StreakTrails(f, h, Streak(h));
    CountAtMost(h, Streak(h), ClearlyTrailing(f));
    CountAtLeast(h, Streak(h), PossiblyTrailing(f));
    FilterPermutation(f, h, ClearlyTrailing(f));
    FilterPermutation(f, h, PossiblyTrailing(f));
  }

  /** No success of the pair finished at the same time as one of its failures. */
  ghost predicate Untied(runs: seq<Run>, moduleName: string, source: string) {
    var f := Filter(runs, Terminal(moduleName, source));
    forall a, b :: a in f && b in f && a.status == Success && b.status == Failed
      ==> !(FinishedFirst(a, b) && FinishedFirst(b, a))
  }

  /** Without such ties every answer of the query has the same streak. */
  lemma UntiedStreak(h: seq<Run>, g: seq<Run>, runs: seq<Run>, moduleName: string, source: string)
    requires Untied(runs, moduleName, source)
    requires IsHistory(h, runs, moduleName, source) && IsHistory(g, runs, moduleName, source)
    ensures Streak(h) == Streak(g)
  {
    var f := Filter(runs, Terminal(moduleName, source));
    hide Filter, Streak;
    StreakMeaning(h, runs, moduleName, source);
    StreakMeaning(g, runs, moduleName, source);
    FilterCongruent(f, ClearlyTrailing(f), PossiblyTrailing(f));
  }

  lemma CountAtMost(h: seq<Run>, k: nat, p: Run -> bool)
    requires k <= |h| && forall r :: r in h[k..] ==> !p(r)
    ensures |Filter(h, p)| <= k
  {
    assert h == h[..k] + h[k..];
    FilterConcat(h[..k], h[k..], p);
    FilterMembers(h[..k], p);
    FilterNone(h[k..], p);
  }

  lemma CountAtLeast(h: seq<Run>, k: nat, p: Run -> bool)
    requires k <= |h| && forall r :: r in h[..k] ==> p(r)
    ensures |Filter(h, p)| >= k
  {
    assert h == h[..k] + h[k..];
    FilterConcat(h[..k], h[k..], p);
    FilterAll(h[..k], p);
  }

  lemma AfterStreakNotTrailing(f: seq<Run>, h: seq<Run>, k: nat)
    requires k <= |h| && Sorted(h, FinishedFirst)
    requires forall r :: r in h <==> r in f
    requires forall r :: r in h ==> r.status == Success || r.status == Failed
    requires k < |h| ==> h[k].status != Failed
    ensures forall r :: r in h[k..] ==> !ClearlyTrailing(f)(r)
  {
    forall r | r in h[k..]
      ensures !ClearlyTrailing(f)(r)
    {
      var i :| k <= i < |h| && h[i] == r;
      assert h[k] in h;
      assert i > k ==> FinishedFirst(h[k], h[i]);
    }
  }

  lemma StreakTrails(f: seq<Run>, h: seq<Run>, k: nat)
    requires k <= |h| && Sorted(h, FinishedFirst)
    requires forall r :: r in h <==> r in f
    requires forall i :: 0 <= i < k ==> h[i].status == Failed
    ensures forall r :: r in h[..k] ==> PossiblyTrailing(f)(r)
  {
    forall r, g | r in h[..k] && g in f && g.status == Success
      ensures FinishedFirst(r, g)
    {
      var i :| 0 <= i < k && h[i] == r;
      var j :| 0 <= j < |h| && h[j] == g;
    }
  }

  /** A second check changes nothing unless the first saw a shorter streak, which takes a tie. */
  lemma {:induction false} CheckIsIdempotent(
    db: Db, moduleName: string, source: string, threshold: nat, first: seq<Run>, second: seq<Run>)
    requires IsHistory(first, db.runs, moduleName, source) && IsHistory(second, db.runs, moduleName, source)
    ensures var once := Check(db, moduleName, source, threshold, first).db;
            Check(once, moduleName, source, threshold, second) == Checked(once, false)
            <==> HasOpen(db.errors, source) || Streak(first) >= threshold || Streak(second) < threshold
    ensures Untied(db.runs, moduleName, source) || first == second ==>
              var once := Check(db, moduleName, source, threshold, first).db;
              Check(once, moduleName, source, threshold, second) == Checked(once, false)
  {
    hide IsHistory, Untied;
    var once := Check(db, moduleName, source, threshold, first);
    CheckOpensExactlyWhen(db, moduleName, source, threshold, first);
    CheckOpensExactlyWhen(once.db, moduleName, source, threshold, second);
    if once.tripped {
      assert IsOpen(once.db.errors[|db.errors|], source);
    }
    if Untied(db.runs, moduleName, source) {
      UntiedStreak(first, second, db.runs, moduleName, source);
    }
  }

  /** Reopening does not clear the failed history: with no run in between, the next check opens again exactly when
      the streak still reaches the threshold. */
  lemma ReopenedCircuitReopensExactlyWhen(
    db: Db, moduleName: string, source: string, threshold: nat, now: int, history: seq<Run>)
    ensures Check(Reopen(db, moduleName, source, now), moduleName, source, threshold, history).tripped
      <==> Streak(history) >= threshold
  {
    CheckOpensExactlyWhen(Reopen(db, moduleName, source, now), moduleName, source, threshold, history);
    NoneOpenAfterReopen(db, moduleName, source, now);
  }

  lemma NoneOpenAfterReopen(db: Db, moduleName: string, source: string, now: int)
    ensures !HasOpen(Reopen(db, moduleName, source, now).errors, source)
  {
  }

  /** Opening then reopening restores the pair's targets only to all-active, and leaves every other target alone. */
  lemma OpenThenReopen(db: Db, moduleName: string, source: string, threshold: nat, now: int, history: seq<Run>)
    requires Check(db, moduleName, source, threshold, history).tripped
    ensures var after := Reopen(Check(db, moduleName, source, threshold, history).db, moduleName, source, now);
            && after.targets == Switch(db.targets, moduleName, source, true)
            && !HasOpen(after.errors, source)
  {
    NoneOpenAfterReopen(Check(db, moduleName, source, threshold, history).db, moduleName, source, now);
  }

  // ----- Invariants over every run of the system

  datatype Action =
    | DoStart(collector: string, moduleName: Option<string>, source: Option<string>, now: int)
    | DoFinish(run: nat, success: bool, now: int)
    | DoSweep(now: int, ttl: int)
    | DoCheck(m: string, s: string, threshold: nat, history: seq<Run>)
    | DoReopen(m: string, s: string, now: int)
    | DoManualOpen(m: string, s: string)
    | DoResolve(error: nat, now: int)

  function Step(db: Db, a: Action): Db {
    match a
    case DoStart(c, m, s, now) => Start(db, c, m, s, now)
    case DoFinish(run, success, now) => Finish(db, run, success, now)
    case DoSweep(now, ttl) => Sweep(db, now, ttl)
    case DoCheck(m, s, threshold, history) => Check(db, m, s, threshold, history).db
    case DoReopen(m, s, now) => Reopen(db, m, s, now)
    case DoManualOpen(m, s) => ManualOpen(db, m, s)
    case DoResolve(error, now) => Resolve(db, error, now)
  }

  function Execute(db: Db, actions: seq<Action>): Db {
    if actions == [] then db else Step(Execute(db, actions[..|actions| - 1]), actions[|actions| - 1])
  }

  /** Under an unresolved open error, every target of its pair is inactive. */
  ghost predicate Quarantined(db: Db) {
    forall i, k :: 0 <= i < |db.errors| && 0 <= k < |db.targets| && IsOpen(db.errors[i], db.errors[i].name)
                   && db.errors[i].contextModule == Some(db.targets[k].moduleName)
                      && db.errors[i].name == db.targets[k].source
      ==> !db.targets[k].active
  }

  /** At most one unresolved open error per source name. */
  ghost predicate OneOpenEach(errors: seq<ErrorRow>) {
    forall i, j :: 0 <= i < j < |errors| && IsOpen(errors[i], errors[i].name) && IsOpen(errors[j], errors[j].name)
      ==> errors[i].name != errors[j].name
  }

  lemma {:induction false} TimeoutsAreNotOpen(runs: seq<Run>, now: int, ttl: int)
    ensures forall e :: e in TimeoutErrors(runs, now, ttl) ==> e.kind == StaleRunTimeout
  {
    if runs != [] {
      TimeoutsAreNotOpen(runs[..|runs| - 1], now, ttl);
    }
  }

  lemma StepKeepsQuarantine(db: Db, a: Action)
    requires Quarantined(db)
    ensures Quarantined(Step(db, a))
  {
    hide Recent;
    if a.DoSweep? {
      TimeoutsAreNotOpen(db.runs, a.now, a.ttl);
    }
  }

  lemma StepKeepsOneOpen(db: Db, a: Action)
    requires OneOpenEach(db.errors) && !a.DoManualOpen?
    ensures OneOpenEach(Step(db, a).errors)
  {
    hide Recent;
    if a.DoSweep? {
      TimeoutsAreNotOpen(db.runs, a.now, a.ttl);
    }
  }

  /** Over every run, an unresolved open error keeps its pair's targets inactive; and while nobody opens a circuit
      by hand, no source name has two of them. */
  lemma {:induction false} BreakerInvariants(db: Db, actions: seq<Action>)
    requires Quarantined(db)
    ensures Quarantined(Execute(db, actions))
    ensures OneOpenEach(db.errors) && (forall a :: a in actions ==> !a.DoManualOpen?)
        ==> OneOpenEach(Execute(db, actions).errors)
  {
    if actions != [] {
      var m := |actions| - 1;
      BreakerInvariants(db, actions[..m]);
      StepKeepsQuarantine(Execute(db, actions[..m]), actions[m]);
      assert actions[m] in actions;
      if OneOpenEach(db.errors) && forall a :: a in actions ==> !a.DoManualOpen? {
        StepKeepsOneOpen(Execute(db, actions[..m]), actions[m]);
      }
    }
  }

  function CleanupActions(now: int, ttl: int, order: seq<(string, string)>, histories: seq<seq<Run>>): seq<Action>
    requires |order| == |histories|
  {
    if order == [] then [DoSweep(now, ttl)]
    else
      var k := |order| - 1;
      CleanupActions(now, ttl, order[..k], histories[..k]) + [DoCheck(order[k].0, order[k].1, THRESHOLD, histories[k])]
  }

  /** The stale-run job is itself a run of steps, so it keeps both invariants. */
  lemma {:induction false} CleanupIsExecution(
    db: Db, now: int, ttl: int, order: seq<(string, string)>, histories: seq<seq<Run>>)
    requires |order| == |histories|
    ensures var after := CheckInOrder(Sweep(db, now, ttl), order, histories);
            && after == Execute(db, CleanupActions(now, ttl, order, histories))
            && (Quarantined(db) ==> Quarantined(after))
            && (Quarantined(db) && OneOpenEach(db.errors) ==> OneOpenEach(after.errors))
  {
    hide Quarantined, OneOpenEach, Sweep, Check;
    CleanupUnfolds(db, now, ttl, order, histories);
    if Quarantined(db) {
      BreakerInvariants(db, CleanupActions(now, ttl, order, histories));
    }
  }

  lemma {:induction false} CleanupUnfolds(
    db: Db, now: int, ttl: int, order: seq<(string, string)>, histories: seq<seq<Run>>)
    requires |order| == |histories|
    ensures CheckInOrder(Sweep(db, now, ttl), order, histories)
        == Execute(db, CleanupActions(now, ttl, order, histories))
    ensures forall a :: a in CleanupActions(now, ttl, order, histories) ==> !a.DoManualOpen?
  {
    hide Sweep, Check;
    if order == [] {
      assert [DoSweep(now, ttl)] == [] + [DoSweep(now, ttl)];
      ExecuteSnoc(db, [], DoSweep(now, ttl));
    } else {
      var k := |order| - 1;
      CleanupUnfolds(db, now, ttl, order[..k], histories[..k]);
      ExecuteSnoc(db, CleanupActions(now, ttl, order[..k], histories[..k]),
                  DoCheck(order[k].0, order[k].1, THRESHOLD, histories[k]));
    }
  }

  /** Finished runs never run again, tables only grow, and resolved errors stay resolved. */
  ghost predicate Advanced(a: Db, b: Db) {
    && |a.runs| <= |b.runs| && |a.targets| == |b.targets| && |a.errors| <= |b.errors|
    && (forall i :: 0 <= i < |a.runs| && (a.runs[i].status == Success || a.runs[i].status == Failed) ==>
          b.runs[i].status == Success || b.runs[i].status == Failed)
    && (forall i :: 0 <= i < |a.errors| ==>
         a.errors[i].kind == b.errors[i].kind && a.errors[i].name == b.errors[i].name)
    && (forall i :: 0 <= i < |a.errors| && a.errors[i].resolvedAt.Some? ==> b.errors[i].resolvedAt.Some?)
  }

  lemma StepAdvances(db: Db, a: Action)
    ensures Advanced(db, Step(db, a))
  {
    hide Recent;
  }

  lemma {:induction false} ExecutionAdvances(db: Db, actions: seq<Action>)
    ensures Advanced(db, Execute(db, actions))
  {
    if actions != [] {
      var m := |actions| - 1;
      ExecutionAdvances(db, actions[..m]);
      StepAdvances(Execute(db, actions[..m]), actions[m]);
    }
  }

  // ----- What the invariants do not cover

  lemma ExecuteSnoc(db: Db, actions: seq<Action>, a: Action)
    ensures Execute(db, actions + [a]) == Step(Execute(db, actions), a)
  {
    assert (actions + [a])[..|actions|] == actions;
  }

  /** The outcome of the last finish of run `i`, if there is one. */
  function LastFinish(actions: seq<Action>, i: nat): Option<bool> {
    if actions == [] then None
    else
      var last := actions[|actions| - 1];
      if last.DoFinish? && last.run == i then Some(last.success) else LastFinish(actions[..|actions| - 1], i)
  }

  /** Over every run of steps a finished run's status is what its worker reported last, if it reported at all:
      no other step changes it, and a failed run stays failed exactly unless that report is a success. */
  lemma {:induction false} FinishedStatus(db: Db, actions: seq<Action>, i: nat)
    requires i < |db.runs| && (db.runs[i].status == Success || db.runs[i].status == Failed)
    ensures i < |Execute(db, actions).runs|
    ensures Execute(db, actions).runs[i].status
         == match LastFinish(actions, i)
            case None => db.runs[i].status
            case Some(success) => if success then Success else Failed
    ensures db.runs[i].status == Failed ==>
              (Execute(db, actions).runs[i].status == Failed <==> LastFinish(actions, i) != Some(true))
  {
    if actions != [] {
      var m := |actions| - 1;
      FinishedStatus(db, actions[..m], i);
      StepStatus(Execute(db, actions[..m]), actions[m], i);
    }
  }

  lemma StepStatus(db: Db, a: Action, i: nat)
    requires i < |db.runs| && (db.runs[i].status == Success || db.runs[i].status == Failed)
    ensures i < |Step(db, a).runs|
    ensures Step(db, a).runs[i].status
         == if a.DoFinish? && a.run == i then (if a.success then Success else Failed) else db.runs[i].status
  {
    hide Recent;
  }

  /** The sweep fails a stale run, and its worker's late success overrides that. */
  lemma ReapedRunCanSucceed(
    db: Db, collector: string, moduleName: Option<string>, source: Option<string>, start: int, ttl: int, now: int)
    requires start < now - ttl * MINUTE
    ensures var run := |db.runs|;
            var swept := Execute(db, [DoStart(collector, moduleName, source, start), DoSweep(now, ttl)]);
            var late := Execute(swept, [DoFinish(run, true, now)]);
            && |swept.runs| == |late.runs| == run + 1
            && swept.runs[run].status == Failed && late.runs[run].status == Success
            && exists e :: e in late.errors && e.kind == StaleRunTimeout && e.runId == Some(run)
  {
    hide Execute;
    var a, b, c := DoStart(collector, moduleName, source, start), DoSweep(now, ttl), DoFinish(|db.runs|, true, now);
    assert [a] == [] + [a] && [a, b] == [a] + [b] && [c] == [] + [c];
    ExecuteSnoc(db, [], a);
    ExecuteSnoc(db, [a], b);
    ExecuteNothing(db);
    var started := Start(db, collector, moduleName, source, start);
    var swept := Sweep(started, now, ttl);
    ExecuteSnoc(swept, [], c);
    ExecuteNothing(swept);
    SweepSnoc(started.runs, |db.runs|, now, ttl);
    assert started.runs[..|started.runs|] == started.runs;
    var timeout := ErrorRow(collector, StaleRunTimeout, None, Some(|db.runs|), None);
    assert timeout in TimeoutErrors(started.runs, now, ttl);
    assert timeout in swept.errors;
  }

  lemma ExecuteNothing(db: Db)
    ensures Execute(db, []) == db
  {
  }

  // ----- Whom an open circuit protects

  /** Every target of the pair is switched off. */
  predicate AllInactive(targets: seq<Target>, moduleName: string, source: string) {
    forall k :: 0 <= k < |targets| && Of(targets[k], moduleName, source) ==> !targets[k].active
  }

  /** An open error under the source name that was recorded for this very pair. */
  predicate OpenFor(errors: seq<ErrorRow>, moduleName: string, source: string) {
    exists i :: 0 <= i < |errors| && IsOpen(errors[i], source) && errors[i].contextModule == Some(moduleName)
  }

  /** A failing pair is off after its check exactly when nothing is open under the source name, or something is open
      for the pair itself, or it was off already: an error opened for another module's source blocks the check. */
  lemma FailingPairOffExactlyWhen(db: Db, moduleName: string, source: string, threshold: nat, history: seq<Run>)
    requires Quarantined(db) && Streak(history) >= threshold
    ensures AllInactive(Check(db, moduleName, source, threshold, history).db.targets, moduleName, source)
      <==> || !HasOpen(db.errors, source)
           || OpenFor(db.errors, moduleName, source)
           || AllInactive(db.targets, moduleName, source)
  {
    hide Recent, Streak;
    CheckOpensExactlyWhen(db, moduleName, source, threshold, history);
  }

  function FailedRun(moduleName: string, source: string): Run {
    Run("collector", Some(moduleName), Some(source), Failed, Some(0), Some(1))
  }

  function FailedRuns(moduleName: string, source: string, k: nat): seq<Run> {
    seq(k, i => FailedRun(moduleName, source))
  }

  /** `k` runs of the pair that start and fail, the first of them as run `n`. */
  function Failures(moduleName: string, source: string, n: nat, k: nat): seq<Action> {
    if k == 0 then []
    else Failures(moduleName, source, n, k - 1)
         + [DoStart("collector", Some(moduleName), Some(source), 0)] + [DoFinish(n + k - 1, false, 1)]
  }

  lemma {:induction false} FailuresRecorded(db: Db, moduleName: string, source: string, k: nat)
    ensures var after := Execute(db, Failures(moduleName, source, |db.runs|, k));
            && after.runs == db.runs + FailedRuns(moduleName, source, k) && after.targets == db.targets
            && (forall name :: HasOpen(after.errors, name) ==> HasOpen(db.errors, name))
  {
    hide Execute, HasOpen;
    if k == 0 {
      ExecuteNothing(db);
      assert db.runs + FailedRuns(moduleName, source, 0) == db.runs;
    } else {
      var before := Failures(moduleName, source, |db.runs|, k - 1);
      var start, fail := DoStart("collector", Some(moduleName), Some(source), 0), DoFinish(|db.runs| + k - 1, false, 1);
      FailuresRecorded(db, moduleName, source, k - 1);
      ExecuteSnoc(db, before, start);
      ExecuteSnoc(db, before + [start], fail);
      OneFailure(Execute(db, before), moduleName, source);
      assert FailedRuns(moduleName, source, k)
          == FailedRuns(moduleName, source, k - 1) + [FailedRun(moduleName, source)];
    }
  }

  lemma OneFailure(db: Db, moduleName: string, source: string)
    ensures var started := Step(db, DoStart("collector", Some(moduleName), Some(source), 0));
            var after := Step(started, DoFinish(|db.runs|, false, 1));
            && after.runs == db.runs + [FailedRun(moduleName, source)] && after.targets == db.targets
            && (forall name :: HasOpen(after.errors, name) ==> HasOpen(db.errors, name))
  {
  }

  lemma {:induction false} AllFailedStreak(h: seq<Run>)
    requires forall r :: r in h ==> r.status == Failed
    ensures Streak(h) == |h|
  {
    if h != [] {
      assert h[0] in h;
      AllFailedStreak(h[1..]);
    }
  }

  lemma {:induction false} ExecuteConcat(db: Db, a: seq<Action>, b: seq<Action>)
    ensures Execute(db, a + b) == Execute(Execute(db, a), b)
  {
    hide Step;
    if b == [] {
      assert a + b == a;
    } else {
      var m := |b| - 1;
      ExecuteConcat(db, a, b[..m]);
      assert a + b == (a + b[..m]) + [b[m]] && b == b[..m] + [b[m]];
      ExecuteSnoc(db, a + b[..m], b[m]);
      ExecuteSnoc(Execute(db, a), b[..m], b[m]);
    }
  }

  lemma FailedRunsAlike(moduleName: string, source: string, k: nat)
    ensures |FailedRuns(moduleName, source, k)| == k
    ensures forall r :: r in FailedRuns(moduleName, source, k) ==> r == FailedRun(moduleName, source)
  {
  }

  lemma OnlyFailures(runs: seq<Run>, other: seq<Run>, moduleName: string, otherModule: string, source: string, k: nat)
    requires moduleName != otherModule
    requires runs == FailedRuns(moduleName, source, k) && other == FailedRuns(otherModule, source, k)
    ensures IsHistory(runs, runs + other, moduleName, source) && IsHistory(runs, other + runs, moduleName, source)
    ensures Streak(runs) == k
  {
    hide Filter, FailedRuns, Streak;
    var p := Terminal(moduleName, source);
    FailedRunsAlike(moduleName, source, k);
    FailedRunsAlike(otherModule, source, k);
    FilterConcat(runs, other, p);
    FilterConcat(other, runs, p);
    FilterAll(runs, p);
    FilterNone(other, p);
    assert runs + [] == runs && [] + runs == runs;
    forall i, j | 0 <= i < j < |runs|
      ensures FinishedFirst(runs[i], runs[j])
    {
      assert runs[i] in runs && runs[j] in runs;
    }
    AllFailedStreak(runs);
  }

  /** From two active targets and no runs: both sources fail up to the threshold, and the first one is checked. */
  function TwoFailingModules(m1: string, m2: string, source: string, threshold: nat): seq<Action> {
    Failures(m1, source, 0, threshold) + Failures(m2, source, threshold, threshold)
    + [DoCheck(m1, source, threshold, FailedRuns(m1, source, threshold))]
  }

  function TwoTargets(m1: string, m2: string, source: string): seq<Target> {
    [Target(m1, source, "collector", "url", true), Target(m2, source, "collector", "url", true)]
  }

  /** Then the check of the second one does nothing, and its target stays active. */
  lemma OtherModuleStaysActive(m1: string, m2: string, source: string, threshold: nat)
    requires m1 != m2
    ensures var db := Execute(Db([], TwoTargets(m1, m2, source), []), TwoFailingModules(m1, m2, source, threshold));
            var first, second := FailedRuns(m1, source, threshold), FailedRuns(m2, source, threshold);
            && IsHistory(first, db.runs, m1, source) && IsHistory(second, db.runs, m2, source)
            && Streak(second) >= threshold && !AllInactive(db.targets, m2, source)
            && Check(db, m2, source, threshold, second) == Checked(db, false)
  {
    hide Execute, Failures, FailedRuns, IsHistory, Streak, Recent;
    var empty := Db([], TwoTargets(m1, m2, source), []);
    var first, second := FailedRuns(m1, source, threshold), FailedRuns(m2, source, threshold);
    var one := Execute(empty, Failures(m1, source, 0, threshold));
    var two := Execute(one, Failures(m2, source, threshold, threshold));
    FailedRunsAlike(m1, source, threshold);
    FailuresRecorded(empty, m1, source, threshold);
    FailuresRecorded(one, m2, source, threshold);
    assert [] + first == first;
    ExecuteConcat(empty, Failures(m1, source, 0, threshold), Failures(m2, source, threshold, threshold));
    ExecuteSnoc(empty, Failures(m1, source, 0, threshold) + Failures(m2, source, threshold, threshold),
                DoCheck(m1, source, threshold, first));
    OnlyFailures(first, second, m1, m2, source, threshold);
    OnlyFailures(second, first, m2, m1, source, threshold);
    CheckOpensExactlyWhen(two, m1, source, threshold, first);
    var db := Check(two, m1, source, threshold, first).db;
    assert IsOpen(db.errors[|two.errors|], source);
    assert Of(db.targets[1], m2, source) && db.targets[1].active;
    CheckOpensExactlyWhen(db, m2, source, threshold, second);
  }

  /** An active seed lies on a pair with an unresolved open error. */
  ghost predicate SeededOnOpen(db: Db, seeds: seq<Target>) {
    exists s, i :: s in seeds && s.active && 0 <= i < |db.errors| && IsOpen(db.errors[i], s.source)
                   && db.errors[i].contextModule == Some(s.moduleName)
  }

  /** Re-seeding the default targets keeps the quarantine exactly when no active seed lies on a pair with an open
      error. */
  lemma SeedingKeepsQuarantineExactlyWhen(db: Db, seeds: seq<Target>)
    requires Quarantined(db) && UniqueTargets(db.targets) && DistinctKeys(seeds)
    ensures Ensure(db.targets, seeds).Some?
    ensures Quarantined(db.(targets := Ensure(db.targets, seeds).value)) <==> !SeededOnOpen(db, seeds)
  {
    hide Flush, VisitAll, UniqueTargets;
    DistinctNeverFail(db.targets, seeds);
    var after := db.(targets := Ensure(db.targets, seeds).value);
    if SeededOnOpen(db, seeds) {
      var s, i :| s in seeds && s.active && 0 <= i < |db.errors| && IsOpen(db.errors[i], s.source)
                  && db.errors[i].contextModule == Some(s.moduleName);
      EverySeedListed(db.targets, seeds, s);
      var k :| 0 <= k < |after.targets| && SameIdentity(after.targets[k], s);
      ActiveSeedActivates(db.targets, seeds, s, k);
    } else {
      forall i, k | 0 <= i < |after.errors| && 0 <= k < |after.targets| && IsOpen(after.errors[i], after.errors[i].name)
                    && after.errors[i].contextModule == Some(after.targets[k].moduleName)
                       && after.errors[i].name == after.targets[k].source
        ensures !after.targets[k].active
      {
        if after.targets[k].active {
          ActiveAfterSeeding(db.targets, seeds, k);
        }
      }
    }
  }

  // ----- Locks and the sweep

  /** The run belongs to the target's collector, under its own source or the shared one. */
  predicate Concerns(r: Run, t: Target) {
    && r.moduleName == Some(t.moduleName) && (r.source == Some(t.source) || r.source == Some(SHARED_SOURCE))
    && r.collector == t.collector
  }

  predicate Holds(r: Run, now: int, ttl: int) {
    r.status == Running && r.startedAt.Some? && r.startedAt.value >= now - ttl * MINUTE
  }

  predicate HasRunningTargetLock(runs: seq<Run>, t: Target, now: int, ttl: int) {
    exists i :: 0 <= i < |runs| && Concerns(runs[i], t) && Holds(runs[i], now, ttl)
  }

  /** At one instant a started running run either holds its lock or is stale, never both; after a sweep at that
      instant a target is locked exactly when some started run of its own is still running. */
  lemma LockedExactlyWhenRunning(db: Db, t: Target, now: int, ttl: int)
    ensures forall r :: r in db.runs && r.status == Running && r.startedAt.Some? ==>
          Holds(r, now, ttl) != IsStale(r, now, ttl)
    ensures var after := Sweep(db, now, ttl).runs;
            HasRunningTargetLock(after, t, now, ttl)
            <==> exists i :: 0 <= i < |after| && Concerns(after[i], t) && after[i].status == Running &&
                  after[i].startedAt.Some?
    ensures HasRunningTargetLock(Sweep(db, now, ttl).runs, t, now, ttl) == HasRunningTargetLock(db.runs, t, now, ttl)
  {
    var after := Sweep(db, now, ttl).runs;
    forall i | 0 <= i < |after|
      ensures Holds(after[i], now, ttl) <==> after[i].status == Running && after[i].startedAt.Some?
      ensures Holds(after[i], now, ttl) == Holds(db.runs[i], now, ttl)
      ensures Concerns(after[i], t) == Concerns(db.runs[i], t)
    {
    }
    if HasRunningTargetLock(db.runs, t, now, ttl) {
      var i :| 0 <= i < |db.runs| && Concerns(db.runs[i], t) && Holds(db.runs[i], now, ttl);
      assert Concerns(after[i], t) && Holds(after[i], now, ttl);
    }
  }

  function TimeoutOf(run: nat): ErrorRow -> bool {
    (e: ErrorRow) => e.kind == StaleRunTimeout && e.runId == Some(run)
  }

  /** A sweep fails exactly the stale runs, at the sweep's time, with exactly one timeout error each; other runs,
      all targets and all earlier errors are unchanged. */
  lemma SweepEffect(db: Db, now: int, ttl: int, i: nat)
    requires i < |db.runs|
    ensures var after := Sweep(db, now, ttl);
            && after.targets == db.targets && |after.runs| == |db.runs|
            && after.errors[..|db.errors|] == db.errors
            && after.runs[i]
               == (if IsStale(db.runs[i], now, ttl) then db.runs[i].(status := Failed, finishedAt := Some(now))
                   else db.runs[i])
            && |Filter(after.errors[|db.errors|..], TimeoutOf(i))| == if IsStale(db.runs[i], now, ttl) then 1 else 0
  {
    var after := Sweep(db, now, ttl);
    assert after.errors[|db.errors|..] == TimeoutErrors(db.runs, now, ttl);
    OneTimeoutEach(db.runs, now, ttl, i);
  }

  lemma {:induction false} OneTimeoutEach(runs: seq<Run>, now: int, ttl: int, i: nat)
    ensures |Filter(TimeoutErrors(runs, now, ttl), TimeoutOf(i))|
         == if i < |runs| && IsStale(runs[i], now, ttl) then 1 else 0
  {
    if runs != [] {
      var k := |runs| - 1;
      var rest := TimeoutErrors(runs[..k], now, ttl);
      OneTimeoutEach(runs[..k], now, ttl, i);
      FilterSnoc(rest, ErrorRow(runs[k].collector, StaleRunTimeout, None, Some(k), None), TimeoutOf(i));
    }
  }
}
