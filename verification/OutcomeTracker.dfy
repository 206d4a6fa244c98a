/** The outcome tracker: how a signal and the candles behind it become one outcome row, and which rows it can write. */
module OutcomeTracker {
  import opened Lists
  import opened Outcomes
  import opened Sorting

  const MINUTE: int := 60_000_000
  const HOUR: int := 60 * MINUTE

  /** Candles evaluated after a signal. */
  const HORIZON: nat := 6

  function CandleLength(timeframe: string): int {
    if timeframe == "1m" then MINUTE
    else if timeframe == "3m" then 3 * MINUTE
    else if timeframe == "5m" then 5 * MINUTE
    else if timeframe == "15m" then 15 * MINUTE
    else if timeframe == "30m" then 30 * MINUTE
    else if timeframe == "2h" then 2 * HOUR
    else if timeframe == "4h" then 4 * HOUR
    else if timeframe == "6h" then 6 * HOUR
    else if timeframe == "8h" then 8 * HOUR
    else if timeframe == "12h" then 12 * HOUR
    else if timeframe == "1d" then DAY
    else HOUR
  }

  datatype Candle = Candle(
    symbol: string, timeframe: string, at: int, high: Option<real>, low: Option<real>, close: Option<real>)

  /** A pending signal; `price` is the close of the candle it was calculated on, if that is known. */
  datatype Signal = Signal(
    symbol: string, timeframe: string, signal: string, confidence: Option<int>, regime: Option<string>,
    calculatedAt: int, price: Option<real>)
  {
    function Timeframe(): string {
      if timeframe == "" then "1h" else timeframe
    }

    function HorizonEnd(): int {
      calculatedAt + HORIZON * CandleLength(Timeframe())
    }
  }

  /** The candles of the signal's market after it and up to its horizon. */
  function InHorizon(s: Signal): Candle -> bool {
    (c: Candle) =>
      c.symbol == s.symbol && c.timeframe == s.Timeframe() && s.calculatedAt < c.at <= s.HorizonEnd()
  }

  predicate Before(a: Candle, b: Candle) {
    a.at <= b.at
  }

  function Behind(s: Signal, table: seq<Candle>): seq<Candle> {
    var candles := Sort(Filter(table, InHorizon(s)), Before);
    if |candles| <= HORIZON + 2 then candles else candles[..HORIZON + 2]
  }

  function NonZero(price: Option<real>): Option<real> {
    if price == Some(0.0) then None else price
  }

  function MaxHigh(candles: seq<Candle>): Option<real> {
    if candles == [] then None else Higher(MaxHigh(candles[..|candles| - 1]), candles[|candles| - 1].high)
  }

  function MinLow(candles: seq<Candle>): Option<real> {
    if candles == [] then None else Lower(MinLow(candles[..|candles| - 1]), candles[|candles| - 1].low)
  }

  /** The move from `price` to `to`, in percent. */
  function Move(to: real, price: real): real
    requires price != 0.0
  {
    (to - price) / price * 100.0
  }

  /** The worst move against the signal. */
  function Adverse(signal: string, candles: seq<Candle>, price: real): Option<real>
    requires price != 0.0
  {
    if signal == "BUY" then
      var low := MinLow(candles);
      if low.Some? then Some(Move(low.value, price)) else None
    else
      var high := MaxHigh(candles);
      if high.Some? then Some(-Move(high.value, price)) else None
  }

  /** The row written for a signal at time `now`, or nothing while its horizon is open or its prices are missing. */
  function Evaluate(s: Signal, table: seq<Candle>, now: int, id: Option<string>): Option<Outcome> {
    var candles := Behind(s, table);
    if s.HorizonEnd() > now || candles == [] then None
    else
      var last := candles[|candles| - 1];
      var price := NonZero(if s.price.Some? then s.price else candles[0].close);
      var close := NonZero(last.close);
      if price.None? || close.None? then None
      else
        var change := Move(close.value, price.value);
        Some(Outcome(id, s.symbol, s.Timeframe(), s.signal, s.regime, s.confidence, Some(change),
                     Adverse(s.signal, candles, price.value),
                     Some(if s.signal == "BUY" then change > 0.0 else change < 0.0),
                     Some(s.calculatedAt), Some(last.at), Some(now)))
  }

  /** A complete candle of positive, ordered prices. */
  predicate Sound(c: Candle) {
    c.high.Some? && c.low.Some? && c.close.Some? && 0.0 < c.low.value <= c.close.value <= c.high.value
  }

  /** What every row of a BUY or SELL over sound candles satisfies. */
  predicate Written(r: Outcome) {
    && (r.signal == "BUY" || r.signal == "SELL") && r.timeframe != ""
    && Tracked(r) && r.priceChange.value > -100.0
    && r.maxAdverse.Some?
    && (r.signal == "BUY" ==> -100.0 < r.maxAdverse.value <= r.priceChange.value)
    && (r.signal == "SELL" ==> r.maxAdverse.value <= -r.priceChange.value)
    && r.signalAt.Some? && r.outcomeAt.Some? && r.evaluatedAt.Some?
    && r.signalAt.value < r.outcomeAt.value <= EndOf(r) <= r.evaluatedAt.value
  }

  /** Where the horizon of a written row ends. */
  function EndOf(r: Outcome): int
    requires r.signalAt.Some?
  {
    r.signalAt.value + HORIZON * CandleLength(r.timeframe)
  }

  /** Written for some signal with a positive price, at some time, over this table. */
  ghost predicate WrittenOver(r: Outcome, table: seq<Candle>) {
    exists s: Signal, now: int ::
      && (s.signal == "BUY" || s.signal == "SELL") && (s.price.Some? ==> s.price.value > 0.0)
      && Evaluate(s, table, now, r.id) == Some(r)
  }

  lemma {:induction false} ExtremesBound(candles: seq<Candle>, k: nat)
    requires k < |candles| && forall c :: c in candles ==> Sound(c)
    ensures Sound(candles[k])
    ensures MinLow(candles).Some? && 0.0 < MinLow(candles).value <= candles[k].low.value
    ensures MaxHigh(candles).Some? && candles[k].high.value <= MaxHigh(candles).value
  {
    var m := |candles| - 1;
    assert candles[m] in candles && candles[k] in candles;
    if k < m {
      ExtremesBound(candles[..m], k);
    } else if m > 0 {
      ExtremesBound(candles[..m], 0);
    }
  }

  lemma MoveOrder(a: real, b: real, price: real)
    requires price > 0.0 && a <= b
    ensures Move(a, price) <= Move(b, price)
    ensures a > 0.0 ==> Move(a, price) > -100.0
  {
    QuotientOrder(a - price, b - price, price);
    QuotientOrder(a - price, -price, price);
    assert -price / price == -1.0;
  }

  lemma BehindMembers(s: Signal, table: seq<Candle>)
    ensures forall c :: c in Behind(s, table) ==> c in table && InHorizon(s)(c)
  {
    var found := Filter(table, InHorizon(s));
    SortPermutes(found, Before);
    SameMembers(Sort(found, Before), found);
    FilterMembers(table, InHorizon(s));
  }

  /** Over sound candles every row the tracker writes is a written row. */
  lemma RowsAreWritten(r: Outcome, table: seq<Candle>)
    requires WrittenOver(r, table) && forall c :: c in table ==> Sound(c)
    ensures Written(r)
  {
    hide Behind, Move, MinLow, MaxHigh;
    var s: Signal, now: int :| (s.signal == "BUY" || s.signal == "SELL") && (s.price.Some? ==> s.price.value > 0.0)
                               && Evaluate(s, table, now, r.id) == Some(r);
    var candles := Behind(s, table);
    BehindMembers(s, table);
    assert candles[0] in candles && candles[|candles| - 1] in candles;
    var last := candles[|candles| - 1];
    var price := if s.price.Some? then s.price.value else candles[0].close.value;
    ExtremesBound(candles, |candles| - 1);
    MoveOrder(MinLow(candles).value, last.close.value, price);
    MoveOrder(last.close.value, MaxHigh(candles).value, price);
  }

  // ----- Every written row can be written

  function SignalOf(r: Outcome): Signal
    requires r.signalAt.Some?
  {
    Signal(r.symbol, r.timeframe, r.signal, r.confidence, r.regime, r.signalAt.value, Some(100.0))
  }

  /** One candle that shows the row's outcome and its worst excursion, from a price of 100. */
  function CandleOf(r: Outcome): Candle
    requires Written(r)
  {
    var close := 100.0 + r.priceChange.value;
    Candle(r.symbol, r.timeframe, r.outcomeAt.value,
           Some(if r.signal == "BUY" then close else 100.0 - r.maxAdverse.value),
           Some(if r.signal == "BUY" then 100.0 + r.maxAdverse.value else close), Some(close))
  }

  lemma CandleOfSound(r: Outcome)
    requires Written(r)
    ensures Sound(CandleOf(r)) && InHorizon(SignalOf(r))(CandleOf(r))
  {
  }

  /** With that candle alone in its horizon, the tracker writes the row. */
  lemma OneCandleSuffices(r: Outcome, table: seq<Candle>)
    requires Written(r) && Filter(table, InHorizon(SignalOf(r))) == [CandleOf(r)]
    ensures WrittenOver(r, table)
  {
    var s, c := SignalOf(r), CandleOf(r);
    CandleOfSound(r);
    SortOne(c);
    assert Behind(s, table) == [c];
    assert [c][..0] == [];
    assert MinLow([c]) == Lower(MinLow([]), c.low) == c.low;
    assert MaxHigh([c]) == Higher(MaxHigh([]), c.high) == c.high;
    FromHundred(r.priceChange.value);
    FromHundred(r.maxAdverse.value);
    FromHundred(-r.maxAdverse.value);
    assert Evaluate(s, table, r.evaluatedAt.value, r.id) == Some(r);
  }

  lemma SortOne(c: Candle)
    ensures Sort([c], Before) == [c]
  {
    assert [c][1..] == [];
    assert Sort([c], Before) == Insert(c, [], Before);
  }

  lemma FromHundred(v: real)
    ensures Move(100.0 + v, 100.0) == v
  {
  }

  /** No candle at one row's outcome lies in another row's horizon. */
  ghost predicate Separate(rows: seq<Outcome>)
    requires forall r :: r in rows ==> Written(r)
  {
    forall i, j :: 0 <= i < |rows| && 0 <= j < |rows| && i != j ==> !Shares(rows, i, j)
  }

  ghost predicate Shares(rows: seq<Outcome>, i: nat, j: nat)
    requires i < |rows| && j < |rows| && Written(rows[i]) && Written(rows[j])
  {
    InHorizon(SignalOf(rows[i]))(CandleOf(rows[j]))
  }

  ghost predicate AllSound(table: seq<Candle>) {
    forall c :: c in table ==> Sound(c)
  }

  ghost predicate AllWrittenOver(rows: seq<Outcome>, table: seq<Candle>) {
    forall r :: r in rows ==> WrittenOver(r, table)
  }

  /** A table of rows the tracker can hold: written over one table of sound candles, with different ids. */
  ghost predicate Real(rows: seq<Outcome>) {
    && (exists table: seq<Candle> :: AllSound(table) && AllWrittenOver(rows, table))
    && forall i, j :: 0 <= i < j < |rows| ==> rows[i].id != rows[j].id
  }

  function CandlesOf(rows: seq<Outcome>): seq<Candle>
    requires forall r :: r in rows ==> Written(r)
  {
    seq(|rows|, i requires 0 <= i < |rows| => CandleOf(rows[i]))
  }

  lemma {:induction false} FilterOne(s: seq<Candle>, p: Candle -> bool, k: nat)
    requires k < |s| && p(s[k]) && forall i :: 0 <= i < |s| && i != k ==> !p(s[i])
    ensures Filter(s, p) == [s[k]]
  {
    hide Filter;
    assert s == s[..k] + [s[k]] + s[k + 1..];
    FilterConcat(s[..k] + [s[k]], s[k + 1..], p);
    FilterSnoc(s[..k], s[k], p);
    FilterNone(s[..k], p);
    FilterNone(s[k + 1..], p);
  }

  /** Written rows with different ids and separate horizons can all be written over one table of candles. */
  lemma SeparateRowsAreReal(rows: seq<Outcome>)
    requires forall r :: r in rows ==> Written(r)
    requires Separate(rows)
    requires forall i, j :: 0 <= i < j < |rows| ==> rows[i].id != rows[j].id
    ensures Real(rows)
  {
    hide Written, WrittenOver, Sound, CandleOf, InHorizon, Filter;
    var table := CandlesOf(rows);
    forall c | c in table
      ensures Sound(c)
    {
      var i :| 0 <= i < |table| && table[i] == c;
      assert rows[i] in rows;
      CandleOfSound(rows[i]);
    }
    forall r | r in rows
      ensures WrittenOver(r, table)
    {
      var k :| 0 <= k < |rows| && rows[k] == r;
      WrittenTimed(r);
      CandleOfSound(r);
      forall i | 0 <= i < |table| && i != k
        ensures !InHorizon(SignalOf(r))(table[i])
      {
        assert rows[i] in rows && !Shares(rows, k, i);
      }
      FilterOne(table, InHorizon(SignalOf(r)), k);
      OneCandleSuffices(r, table);
    }
    assert AllSound(table) && AllWrittenOver(rows, table);
  }

  /** Every row of a real table is a written row. */
  lemma RealRowsAreWritten(rows: seq<Outcome>)
    requires Real(rows)
    ensures forall r :: r in rows ==> Written(r)
  {
    hide Written, WrittenOver, Sound;
    var table: seq<Candle> :| AllSound(table) && AllWrittenOver(rows, table);
    forall r | r in rows
      ensures Written(r)
    {
      RowsAreWritten(r, table);
    }
  }

  lemma WrittenTimed(r: Outcome)
    requires Written(r)
    ensures r.signalAt.Some?
  {
  }

  /** The rows the tracker can write over sound candles are exactly the written ones. */
  lemma WrittenExactlyWhen(r: Outcome)
    ensures Written(r) <==> exists table: seq<Candle> :: AllSound(table) && WrittenOver(r, table)
  {
    hide Written, WrittenOver, Sound;
    if Written(r) {
      var rows := [r];
      SeparateRowsAreReal(rows);
      var table: seq<Candle> :| AllSound(table) && AllWrittenOver(rows, table);
      assert r in rows;
    }
    forall table: seq<Candle> | AllSound(table) && WrittenOver(r, table)
      ensures Written(r)
    {
      RowsAreWritten(r, table);
    }
  }
}
