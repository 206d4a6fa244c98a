/** Historical bars: cursor download from an exchange, and idempotent insertion under unique constraints. */
module OhlcvBackfill {
  import opened Lists

  const PAGE: nat := 1000
  const MODULE: string := "crypto"
  const SOURCE: string := "crypto_coin_exchange"
  const EXCHANGE: string := "binance"

  datatype Bar = Bar(ts: int, open: real, high: real, low: real, close: real, volume: real)

  // ----- Download

  function From(since: int): Bar -> bool {
    (b: Bar) => b.ts >= since
  }

  /** The exchange's bars, oldest first, one per timestamp. */
  ghost predicate AscendingBars(bars: seq<Bar>) {
    forall i, j :: 0 <= i < j < |bars| ==> bars[i].ts < bars[j].ts
  }

  /** One exchange call: the first bars at or after `since`, at most `limit` of them. */
  function Fetch(source: seq<Bar>, since: int, limit: nat): seq<Bar> {
    var bars := Filter(source, From(since));
    if |bars| <= limit then bars else bars[..limit]
  }

  /** Resuming one past the last bar of a page leaves exactly the bars behind the page. */
  lemma ResumeAfterPage(source: seq<Bar>, since: int, k: nat)
    requires AscendingBars(source)
    requires 1 <= k <= |Filter(source, From(since))|
    ensures var left := Filter(source, From(since));
            Filter(source, From(left[k - 1].ts + 1)) == left[k..]
  {
    hide Filter;
    var left := Filter(source, From(since));
    SuffixFrom(source, since);
    var start := |source| - |left|;
    assert source[start + k - 1] == left[k - 1];
    TailFrom(source, start + k - 1);
    assert source[start + k..] == left[k..];
  }

  lemma TailFrom(source: seq<Bar>, i: nat)
    requires i < |source| && AscendingBars(source)
    ensures Filter(source, From(source[i].ts + 1)) == source[i + 1..]
  {
    var p := From(source[i].ts + 1);
    assert source == source[..i + 1] + source[i + 1..];
    FilterConcat(source[..i + 1], source[i + 1..], p);
    FilterNone(source[..i + 1], p);
    FilterAll(source[i + 1..], p);
  }

  /** The bars from a time on are a suffix of the ascending source. */
  lemma SuffixFrom(source: seq<Bar>, since: int)
    requires AscendingBars(source)
    ensures |Filter(source, From(since))| <= |source|
    ensures Filter(source, From(since)) == source[|source| - |Filter(source, From(since))|..]
  {
    hide Filter;
    FilterKeepsSuffix(source, From(since));
  }

  /** Returns every bar at or after `sinceMs`, once each, in order. */
  method FetchOhlcvPaginated(source: seq<Bar>, sinceMs: int) returns (all: seq<Bar>)
    requires AscendingBars(source)
    ensures all == Filter(source, From(sinceMs))
  {
    all := [];
    var cursor := sinceMs;
    while true
      invariant all + Filter(source, From(cursor)) == Filter(source, From(sinceMs))
      decreases |Filter(source, From(cursor))|
    {
      var bars := Fetch(source, cursor, PAGE);
      if |bars| == 0 {
        break;
      }
      ghost var left := Filter(source, From(cursor));
      all := all + bars;
      if |bars| < PAGE {
        break;
      }
      ResumeAfterPage(source, cursor, PAGE);
      assert left == left[..PAGE] + left[PAGE..];
      cursor := bars[|bars| - 1].ts + 1;
    }
  }

  // ----- Insertion

  /** The raw document of a bar; its checksum is computed by an unspecified hash. */
  datatype Payload = Payload(symbol: string, exchange: string, timeframe: string, bar: Bar)

  /** A raw row's id is its position in the table. */
  datatype Raw = Raw(moduleName: string, source: string, checksum: string, payload: Payload)

  datatype Candle = Candle(rawId: nat, source: string, symbol: string, timeframe: string, bar: Bar)

  datatype Db = Db(raws: seq<Raw>, candles: seq<Candle>)

  function FindRaw(raws: seq<Raw>, checksum: string): Option<nat> {
    if raws == [] then None
    else
      var k := |raws| - 1;
      if raws[k].moduleName == MODULE && raws[k].source == SOURCE && raws[k].checksum == checksum then Some(k)
      else FindRaw(raws[..k], checksum)
  }

  predicate SameCandleKey(c: Candle, symbol: string, timeframe: string, ts: int) {
    c.source == SOURCE && c.symbol == symbol && c.timeframe == timeframe && c.bar.ts == ts
  }

  predicate HasCandle(candles: seq<Candle>, symbol: string, timeframe: string, ts: int) {
    exists i :: 0 <= i < |candles| && SameCandleKey(candles[i], symbol, timeframe, ts)
  }

  datatype Inserted = Inserted(db: Db, raws: nat, candles: nat)

  /** The effect of inserting one bar. */
  function InsertOne(db: Db, bar: Bar, symbol: string, timeframe: string, hash: Payload -> string): Inserted {
    var payload := Payload(symbol, EXCHANGE, timeframe, bar);
    var found := FindRaw(db.raws, hash(payload));
    var rawId := if found.Some? then found.value else |db.raws|;
    var raws := if found.Some? then db.raws else db.raws + [Raw(MODULE, SOURCE, hash(payload), payload)];
    var stored := HasCandle(db.candles, symbol, timeframe, bar.ts);
    var candles := if stored then db.candles else db.candles + [Candle(rawId, SOURCE, symbol, timeframe, bar)];
    Inserted(Db(raws, candles), if found.Some? then 0 else 1, if stored then 0 else 1)
  }

  /** The effect of inserting a list of bars, with the two counters. */
  function InsertAll(db: Db, bars: seq<Bar>, symbol: string, timeframe: string, hash: Payload -> string): Inserted {
    if bars == [] then Inserted(db, 0, 0)
    else
      var before := InsertAll(db, bars[..|bars| - 1], symbol, timeframe, hash);
      var last := InsertOne(before.db, bars[|bars| - 1], symbol, timeframe, hash);
      Inserted(last.db, before.raws + last.raws, before.candles + last.candles)
  }

  class Store {
    var raws: seq<Raw>
    var candles: seq<Candle>

    ghost function View(): Db
      reads this
    {
      Db(raws, candles)
    }

    method InsertBars(bars: seq<Bar>, symbol: string, timeframe: string, hash: Payload -> string)
      returns (rawInserted: nat, candleInserted: nat)
      modifies this
      ensures Inserted(View(), rawInserted, candleInserted) == InsertAll(old(View()), bars, symbol, timeframe, hash)
    {
      hide FindRaw, HasCandle;
      rawInserted, candleInserted := 0, 0;
      for i := 0 to |bars|
        invariant Inserted(View(), rawInserted, candleInserted)
            == InsertAll(old(View()), bars[..i], symbol, timeframe, hash)
      {
        assert bars[..i + 1][..i] == bars[..i];
        var payload := Payload(symbol, EXCHANGE, timeframe, bars[i]);
        var checksum := hash(payload);
        var existing := FindRaw(raws, checksum);
        var rawId := |raws|;
        if existing.None? {
          raws := raws + [Raw(MODULE, SOURCE, checksum, payload)];
          rawInserted := rawInserted + 1;
        } else {
          rawId := existing.value;
        }
        if !HasCandle(candles, symbol, timeframe, bars[i].ts) {
          candles := candles + [Candle(rawId, SOURCE, symbol, timeframe, bars[i])];
          candleInserted := candleInserted + 1;
        }
      }
      assert bars[..|bars|] == bars;
    }
  }

  // ----- Constraints, conservation, idempotence

  ghost predicate SameRawIdentity(a: Raw, b: Raw) {
    a.moduleName == b.moduleName && a.source == b.source && a.checksum == b.checksum
  }

  ghost predicate SameCandleIdentity(a: Candle, b: Candle) {
    a.source == b.source && a.symbol == b.symbol && a.timeframe == b.timeframe && a.bar.ts == b.bar.ts
  }

  /** One raw row per identity, one candle per identity, and every candle refers to an existing raw row. */
  ghost predicate Consistent(db: Db) {
    && (forall i, j :: 0 <= i < j < |db.raws| ==> !SameRawIdentity(db.raws[i], db.raws[j]))
    && (forall i, j :: 0 <= i < j < |db.candles| ==> !SameCandleIdentity(db.candles[i], db.candles[j]))
    && (forall i :: 0 <= i < |db.candles| ==> db.candles[i].rawId < |db.raws|)
  }

  lemma {:induction false} FindRawMeaning(raws: seq<Raw>, checksum: string)
    ensures var found := FindRaw(raws, checksum);
            if found.Some? then
              found.value < |raws| && raws[found.value].moduleName == MODULE && raws[found.value].source == SOURCE
              && raws[found.value].checksum == checksum
            else forall i :: 0 <= i < |raws| ==>
                   !(raws[i].moduleName == MODULE && raws[i].source == SOURCE && raws[i].checksum == checksum)
  {
    if raws != [] {
      FindRawMeaning(raws[..|raws| - 1], checksum);
    }
  }

  /** A raw row, once present, is found again in every longer table. */
  lemma FindRawPersists(raws: seq<Raw>, more: seq<Raw>, checksum: string)
    requires FindRaw(raws, checksum).Some?
    ensures FindRaw(raws + more, checksum).Some?
  {
    FindRawMeaning(raws, checksum);
    FindRawMeaning(raws + more, checksum);
    var k := FindRaw(raws, checksum).value;
    assert (raws + more)[k] == raws[k];
  }

  lemma OneBarConsistent(db: Db, bar: Bar, symbol: string, timeframe: string, hash: Payload -> string)
    requires Consistent(db)
    ensures Consistent(InsertOne(db, bar, symbol, timeframe, hash).db)
  {
    FindRawMeaning(db.raws, hash(Payload(symbol, EXCHANGE, timeframe, bar)));
  }

  /** Old rows stay where they are, and the counters count the rows added. */
  ghost predicate Extends(db: Db, result: Inserted) {
    && db.raws <= result.db.raws && db.candles <= result.db.candles
    && |result.db.raws| == |db.raws| + result.raws
    && |result.db.candles| == |db.candles| + result.candles
  }

  /** Both of a bar's rows are present. */
  ghost predicate Present(db: Db, bar: Bar, symbol: string, timeframe: string, hash: Payload -> string) {
    && FindRaw(db.raws, hash(Payload(symbol, EXCHANGE, timeframe, bar))).Some?
    && HasCandle(db.candles, symbol, timeframe, bar.ts)
  }

  lemma OneBarPresent(db: Db, bar: Bar, symbol: string, timeframe: string, hash: Payload -> string)
    ensures Present(InsertOne(db, bar, symbol, timeframe, hash).db, bar, symbol, timeframe, hash)
    ensures Extends(db, InsertOne(db, bar, symbol, timeframe, hash))
  {
    var after := InsertOne(db, bar, symbol, timeframe, hash).db;
    FindRawMeaning(after.raws, hash(Payload(symbol, EXCHANGE, timeframe, bar)));
    if !HasCandle(db.candles, symbol, timeframe, bar.ts) {
      assert SameCandleKey(after.candles[|db.candles|], symbol, timeframe, bar.ts);
    }
  }

  lemma PresentPersists(db: Db, later: Db, bar: Bar, symbol: string, timeframe: string, hash: Payload -> string)
    requires Present(db, bar, symbol, timeframe, hash)
    requires db.raws <= later.raws && db.candles <= later.candles
    ensures Present(later, bar, symbol, timeframe, hash)
  {
    assert later.raws == db.raws + later.raws[|db.raws|..];
    FindRawPersists(db.raws, later.raws[|db.raws|..], hash(Payload(symbol, EXCHANGE, timeframe, bar)));
    var i :| 0 <= i < |db.candles| && SameCandleKey(db.candles[i], symbol, timeframe, bar.ts);
    assert later.candles[i] == db.candles[i];
  }

  /** Every candle from position `first` on refers to the raw row that carries its own bar's checksum. */
  ghost predicate Grounded(db: Db, first: nat, symbol: string, timeframe: string, hash: Payload -> string) {
    forall i :: first <= i < |db.candles| ==>
      var c := db.candles[i];
      && c.rawId < |db.raws| && db.raws[c.rawId].moduleName == MODULE && db.raws[c.rawId].source == SOURCE
      && db.raws[c.rawId].checksum == hash(Payload(symbol, EXCHANGE, timeframe, c.bar))
  }

  lemma OneBarGrounded(db: Db, first: nat, bar: Bar, symbol: string, timeframe: string, hash: Payload -> string)
    requires Grounded(db, first, symbol, timeframe, hash)
    ensures Grounded(InsertOne(db, bar, symbol, timeframe, hash).db, first, symbol, timeframe, hash)
  {
    FindRawMeaning(db.raws, hash(Payload(symbol, EXCHANGE, timeframe, bar)));
  }

  /** Each candle an insertion adds, whether its raw row is new or found, refers to that of its own bar. */
  lemma {:induction false} InsertedCandlesGrounded(
    db: Db, bars: seq<Bar>, symbol: string, timeframe: string, hash: Payload -> string)
    ensures Grounded(InsertAll(db, bars, symbol, timeframe, hash).db, |db.candles|, symbol, timeframe, hash)
  {
    if bars != [] {
      hide InsertOne, Grounded;
      var m := |bars| - 1;
      InsertedCandlesGrounded(db, bars[..m], symbol, timeframe, hash);
      OneBarGrounded(InsertAll(db, bars[..m], symbol, timeframe, hash).db, |db.candles|, bars[m], symbol, timeframe,
          hash);
    }
  }

  /** Inserting any list keeps the constraints, only appends, counts what it appends, grounds each new candle in its
      own bar's raw row, and leaves every bar present. */
  lemma {:induction false} InsertionKeepsConstraints(
    db: Db, bars: seq<Bar>, symbol: string, timeframe: string, hash: Payload -> string)
    requires Consistent(db)
    ensures var result := InsertAll(db, bars, symbol, timeframe, hash);
            && Consistent(result.db) && Extends(db, result)
            && Grounded(result.db, |db.candles|, symbol, timeframe, hash)
            && forall b :: b in bars ==> Present(result.db, b, symbol, timeframe, hash)
  {
    InsertedCandlesGrounded(db, bars, symbol, timeframe, hash);
    hide Grounded;
    if bars != [] {
      var m := |bars| - 1;
      var before := InsertAll(db, bars[..m], symbol, timeframe, hash);
      InsertionKeepsConstraints(db, bars[..m], symbol, timeframe, hash);
      OneBarConsistent(before.db, bars[m], symbol, timeframe, hash);
      OneBarPresent(before.db, bars[m], symbol, timeframe, hash);
      var after := InsertOne(before.db, bars[m], symbol, timeframe, hash).db;
      forall b | b in bars
        ensures Present(after, b, symbol, timeframe, hash)
      {
        if b in bars[..m] {
          PresentPersists(before.db, after, b, symbol, timeframe, hash);
        }
      }
    }
  }

  lemma {:induction false} PresentBarsChangeNothing(
    db: Db, bars: seq<Bar>, symbol: string, timeframe: string, hash: Payload -> string)
    requires forall b :: b in bars ==> Present(db, b, symbol, timeframe, hash)
    ensures InsertAll(db, bars, symbol, timeframe, hash) == Inserted(db, 0, 0)
  {
    if bars != [] {
      var m := |bars| - 1;
      PresentBarsChangeNothing(db, bars[..m], symbol, timeframe, hash);
      assert bars[m] in bars;
    }
  }

  /** Inserting the same list again changes nothing and reports (0, 0). */
  lemma {:induction false} ReinsertionIsIdle(
    db: Db, bars: seq<Bar>, symbol: string, timeframe: string, hash: Payload -> string)
    requires Consistent(db)
    ensures var once := InsertAll(db, bars, symbol, timeframe, hash).db;
            InsertAll(once, bars, symbol, timeframe, hash) == Inserted(once, 0, 0)
  {
    InsertionKeepsConstraints(db, bars, symbol, timeframe, hash);
    PresentBarsChangeNothing(InsertAll(db, bars, symbol, timeframe, hash).db, bars, symbol, timeframe, hash);
  }

  /** A revised bar adds a raw row when its checksum is new, but the stored candle keeps its first values. */
  lemma FirstCandleWins(db: Db, bar: Bar, revised: Bar, symbol: string, timeframe: string, hash: Payload -> string)
    requires revised.ts == bar.ts
    ensures var once := InsertOne(db, bar, symbol, timeframe, hash).db;
            InsertOne(once, revised, symbol, timeframe, hash).db.candles == once.candles
  {
    OneBarPresent(db, bar, symbol, timeframe, hash);
  }

  /** Into an empty store, an ascending list puts one candle per bar, in order. */
  lemma {:induction false} AscendingBarsAllStored(
    bars: seq<Bar>, symbol: string, timeframe: string, hash: Payload -> string)
    requires AscendingBars(bars)
    ensures var result := InsertAll(Db([], []), bars, symbol, timeframe, hash);
            && |result.db.candles| == result.candles == |bars|
            && forall i :: 0 <= i < |bars| ==>
                 result.db.candles[i].bar == bars[i] && result.db.candles[i].symbol == symbol
  {
    if bars != [] {
      var m := |bars| - 1;
      AscendingBarsAllStored(bars[..m], symbol, timeframe, hash);
      var before := InsertAll(Db([], []), bars[..m], symbol, timeframe, hash).db;
      assert !HasCandle(before.candles, symbol, timeframe, bars[m].ts);
    }
  }

  /** A backfill into an empty store holds exactly the source's bars from `sinceMs` on, one candle each. */
  lemma BackfillIsComplete(source: seq<Bar>, sinceMs: int, symbol: string, timeframe: string, hash: Payload -> string)
    requires AscendingBars(source)
    ensures var candles := InsertAll(Db([], []), Filter(source, From(sinceMs)), symbol, timeframe, hash).db.candles;
            && |candles| == |Filter(source, From(sinceMs))|
            && (forall b :: b in source && b.ts >= sinceMs ==> exists i :: 0 <= i < |candles| && candles[i].bar == b)
            && (forall i :: 0 <= i < |candles| ==> candles[i].bar in source && candles[i].bar.ts >= sinceMs)
  {
    hide Filter, InsertAll, FindRaw;
    var bars := Filter(source, From(sinceMs));
    SuffixFrom(source, sinceMs);
    FilterMembers(source, From(sinceMs));
    AscendingBarsAllStored(bars, symbol, timeframe, hash);
    var candles := InsertAll(Db([], []), bars, symbol, timeframe, hash).db.candles;
    forall b | b in source && b.ts >= sinceMs
      ensures exists i :: 0 <= i < |candles| && candles[i].bar == b
    {
      var i :| 0 <= i < |bars| && bars[i] == b;
      assert candles[i].bar == b;
    }
    forall i | 0 <= i < |candles|
      ensures candles[i].bar in source && candles[i].bar.ts >= sinceMs
    {
      assert bars[i] in bars && From(sinceMs)(bars[i]);
    }
  }
}
