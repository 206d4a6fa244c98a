/** Signal outcome rows, evaluation contexts and lookback windows. */
module Outcomes {
  import opened Lists
  import opened Sorting

  /** Time is counted in microseconds. */
  const DAY: int := 86_400_000_000

  datatype Outcome = Outcome(
    id: Option<string>, symbol: string, timeframe: string, signal: string, regime: Option<string>,
    confidence: Option<int>, priceChange: Option<real>, maxAdverse: Option<real>, correct: Option<bool>,
    signalAt: Option<int>, outcomeAt: Option<int>, evaluatedAt: Option<int>)

  datatype Context = Context(
    timestamp: int, replay: bool, datasetTimestamp: Option<int>, version: string,
    rowCount: Option<nat>, lookbackDays: Option<int>)

  /** How rows are serialised, how serialised rows compare, and how the list of them is hashed. */
  datatype Digest = Digest(json: Outcome -> string, le: (string, string) -> bool, hash: (int, seq<string>) -> string)
  {
    /** String comparison is a total order. */
    ghost predicate Valid() {
      && TotalPreorder(le)
      && forall x, y :: le(x, y) && le(y, x) ==> x == y
    }
  }

  /** The row's return, in percent. */
  function Change(): Outcome -> real {
    (r: Outcome) => if r.priceChange.Some? then r.priceChange.value else 0.0
  }

  function Won(): Outcome -> bool {
    (r: Outcome) => r.correct == Some(true)
  }

  /** A row as the outcome tracker writes it: a BUY is correct when the price rose, any other signal when it fell. */
  predicate Tracked(r: Outcome) {
    && r.priceChange.Some? && r.correct.Some?
    && (r.correct.value <==> if r.signal == "BUY" then r.priceChange.value > 0.0 else r.priceChange.value < 0.0)
  }

  function RowTimestamp(row: Outcome): Option<int> {
    if row.outcomeAt.Some? then row.outcomeAt
    else if row.evaluatedAt.Some? then row.evaluatedAt
    else row.signalAt
  }

  function Serialise(rows: seq<Outcome>, json: Outcome -> string): seq<string> {
    if rows == [] then [] else Serialise(rows[..|rows| - 1], json) + [json(rows[|rows| - 1])]
  }

  function Later(a: Option<int>, b: Option<int>): Option<int> {
    if a.None? then b else if b.None? then a else if a.value < b.value then b else a
  }

  /** The newest timestamp carried by any row. */
  function Newest(rows: seq<Outcome>): Option<int> {
    if rows == [] then None else Later(Newest(rows[..|rows| - 1]), RowTimestamp(rows[|rows| - 1]))
  }

  function DeriveContext(rows: seq<Outcome>, lookbackDays: int, given: Option<Context>, digest: Digest): Context {
    match given
    case Some(ctx) =>
      var given := ctx.lookbackDays;
      var kept := if given.Some? && given.value != 0 then given else Some(lookbackDays);
      ctx.(lookbackDays := kept)
    case None =>
      var ts := if Newest(rows).Some? then Newest(rows).value else 0;
      Context(ts, true, Some(ts), digest.hash(lookbackDays, Sort(Serialise(rows, digest.json), digest.le)),
              Some(|rows|), Some(lookbackDays))
  }

  function InWindow(end: int, days: int): Outcome -> bool {
    (row: Outcome) => row.signalAt.Some? && end - days * DAY <= row.signalAt.value <= end
  }

  /** The rows whose signal falls in the closed lookback window. */
  function Window(rows: seq<Outcome>, ctx: Context, days: int): seq<Outcome> {
    Filter(rows, InWindow(ctx.timestamp, days))
  }

  method FilterRowsForContext(rows: seq<Outcome>, ctx: Context, lookbackDays: int) returns (filtered: seq<Outcome>)
    ensures filtered == Window(rows, ctx, lookbackDays)
  {
    var end := ctx.timestamp;
    var cutoff := end - lookbackDays * DAY;
    filtered := [];
    for i := 0 to |rows|
      invariant filtered == Window(rows[..i], ctx, lookbackDays)
    {
      assert rows[..i + 1] == rows[..i] + [rows[i]];
      FilterSnoc(rows[..i], rows[i], InWindow(end, lookbackDays));
      if rows[i].signalAt.Some? {
        var ts := rows[i].signalAt.value;
        if cutoff <= ts <= end {
          filtered := filtered + [rows[i]];
        }
      }
    }
    assert rows[..|rows|] == rows;
  }

  // ----- Replay determinism

  lemma {:induction false} SerialisePermutation(s: seq<Outcome>, t: seq<Outcome>, json: Outcome -> string)
    requires multiset(s) == multiset(t)
    ensures multiset(Serialise(s, json)) == multiset(Serialise(t, json))
    decreases |s|
  {
    if s == [] {
      assert |multiset(t)| == 0;
    } else {
      var i := Withdraw(s, t);
      SerialisePermutation(s[..|s| - 1], t[..i] + t[i + 1..], json);
      SerialiseConcat(t[..i] + [t[i]], t[i + 1..], json);
      SerialiseConcat(t[..i], [t[i]], json);
      SerialiseConcat(t[..i], t[i + 1..], json);
      assert [t[i]][..0] == [];
      assert Serialise([t[i]], json) == [json(t[i])];
    }
  }

  lemma {:induction false} SerialiseConcat(a: seq<Outcome>, b: seq<Outcome>, json: Outcome -> string)
    ensures Serialise(a + b, json) == Serialise(a, json) + Serialise(b, json)
  {
    if b == [] {
      assert a + b == a;
    } else {
      var m := |b| - 1;
      SerialiseConcat(a, b[..m], json);
      assert (a + b)[..|a + b| - 1] == a + b[..m];
    }
  }

  /** `Newest` is the maximum of the row timestamps. */
  lemma {:induction false} NewestIsMaximum(rows: seq<Outcome>)
    ensures Newest(rows).None? <==> forall r :: r in rows ==> RowTimestamp(r).None?
    ensures Newest(rows).Some? ==> exists r :: r in rows && RowTimestamp(r) == Newest(rows)
    ensures forall r :: r in rows && RowTimestamp(r).Some? ==>
          Newest(rows).Some? && RowTimestamp(r).value <= Newest(rows).value
  {
    if rows != [] {
      var m := |rows| - 1;
      NewestIsMaximum(rows[..m]);
      assert rows == rows[..m] + [rows[m]];
      assert rows[m] in rows;
    }
  }

  lemma NewestPermutation(s: seq<Outcome>, t: seq<Outcome>)
    requires multiset(s) == multiset(t)
    ensures Newest(s) == Newest(t)
  {
    NewestIsMaximum(s);
    NewestIsMaximum(t);
    SameMembers(s, t);
  }

  /** The derived context, dataset version included, ignores the order of the rows. */
  lemma ContextIgnoresRowOrder(
    s: seq<Outcome>, t: seq<Outcome>, lookbackDays: int, given: Option<Context>, digest: Digest)
    requires multiset(s) == multiset(t)
    requires digest.Valid()
    ensures DeriveContext(s, lookbackDays, given, digest) == DeriveContext(t, lookbackDays, given, digest)
  {
    NewestPermutation(s, t);
    SerialisePermutation(s, t, digest.json);
    SortPermutation(Serialise(s, digest.json), Serialise(t, digest.json), digest.le);
    assert |multiset(s)| == |multiset(t)|;
  }

  /** Rows whose signal lies outside the window can be added or removed anywhere. */
  lemma OutsideRowsIgnored(
    a: seq<Outcome>, outside: seq<Outcome>, b: seq<Outcome>, ctx: Context, days: int, keep: Outcome -> bool)
    requires forall r :: r in outside ==> !InWindow(ctx.timestamp, days)(r)
    ensures Window(Filter(a + outside + b, keep), ctx, days) == Window(Filter(a + b, keep), ctx, days)
  {
    FilterThree(a, outside, b, keep);
    FilterConcat(a, b, keep);
    FilterThree(Filter(a, keep), Filter(outside, keep), Filter(b, keep), InWindow(ctx.timestamp, days));
    FilterConcat(Filter(a, keep), Filter(b, keep), InWindow(ctx.timestamp, days));
    FilterMembers(outside, keep);
    FilterNone(Filter(outside, keep), InWindow(ctx.timestamp, days));
  }

  lemma FilterThree(a: seq<Outcome>, b: seq<Outcome>, c: seq<Outcome>, p: Outcome -> bool)
    ensures Filter(a + b + c, p) == Filter(a, p) + Filter(b, p) + Filter(c, p)
  {
    FilterConcat(a + b, c, p);
    FilterConcat(a, b, p);
  }
}
