/** What the risk tuner's expectancy, which weighs by correct predictions, can hide about the price changes. */
module Masking {
  import opened Lists
  import opened OutcomeTracker
  import opened Outcomes
  import opened Performance
  import opened RiskTuning

  /** With no more correct rows than gaining ones, a non-negative expectancy means a non-negative sum of changes. */
  lemma {:induction false} HonestExpectancy(rows: seq<Outcome>)
    requires rows != [] && |Filter(rows, Won())| <= |Filter(rows, Gaining())|
    requires Expectancy(rows) >= 0.0
    ensures SumBy(rows, Change()) >= 0.0
  {
    hide Ratio, Blend, Times, AverageWin, AverageLoss, GrossProfit, GrossLoss, Filter, SumBy;
    var share := Ratio(|Filter(rows, Gaining())| as real, |rows|);
    BlendByGainsIsMean(rows);
    BlendShift(WinRate(rows), share, AverageWin(rows), AverageLoss(rows));
    QuotientAtMost(|Filter(rows, Won())|, |Filter(rows, Gaining())|, |rows|);
    AveragesVanish(rows);
    ProductNotPositive(WinRate(rows) - share, AverageWin(rows) + AverageLoss(rows));
    RatioAbove(SumBy(rows, Change()), |rows|, 0.0);
    TimesZeroLeft(|rows| as real);
  }

  lemma TimesZeroLeft(v: real)
    ensures Times(0.0, v) == 0.0
  {
  }

  lemma QuotientAtMost(a: nat, b: nat, n: nat)
    requires n > 0 && a <= b
    ensures Ratio(a as real, n) <= Ratio(b as real, n)
  {
    QuotientOrder(a as real, b as real, n as real);
  }

  lemma ProductNotPositive(u: real, v: real)
    requires u <= 0.0 && v >= 0.0
    ensures Times(u, v) <= 0.0
  {
  }

  /** On tracked rows, correct rows outnumber gaining ones exactly when falling SELLs outnumber rising ones. */
  lemma {:induction false} CorrectAgainstGaining(rows: seq<Outcome>)
    requires forall r :: r in rows ==> Tracked(r)
    ensures |Filter(rows, Won())| - |Filter(rows, Gaining())|
        == |Filter(rows, FallingSell())| - |Filter(rows, RisingSell())|
  {
    if rows != [] {
      var m := |rows| - 1;
      var r := rows[m];
      assert r in rows;
      CorrectAgainstGaining(rows[..m]);
      TrackedMeans(r);
    }
  }

  lemma TrackedMeans(r: Outcome)
    requires Tracked(r)
    ensures r.signal == "BUY" ==> (Won()(r) <==> Gaining()(r)) && !FallingSell()(r) && !RisingSell()(r)
    ensures r.signal != "BUY" ==> (Won()(r) <==> FallingSell()(r)) && (Gaining()(r) <==> RisingSell()(r))
  {
    assert Change()(r) == r.priceChange.value;
    assert Won()(r) <==> r.correct.value;
    assert Losing()(r) <==> r.priceChange.value < 0.0;
    assert Gaining()(r) <==> r.priceChange.value > 0.0;
  }

  function FallingSell(): Outcome -> bool {
    (r: Outcome) => r.signal != "BUY" && Losing()(r)
  }

  function RisingSell(): Outcome -> bool {
    (r: Outcome) => r.signal != "BUY" && Gaining()(r)
  }

  /** The counts of rows, correct rows and gaining rows. */
  ghost predicate Counted(rows: seq<Outcome>, n: nat, correct: nat, gaining: nat) {
    |rows| == n && |Filter(rows, Won())| == correct && |Filter(rows, Gaining())| == gaining
  }

  /** A non-negative expectancy over a negative sum of changes. */
  ghost predicate Masked(rows: seq<Outcome>) {
    Expectancy(rows) >= 0.0 && SumBy(rows, Change()) < 0.0
  }

  /** Correct rows outnumber gaining ones, and some row gains or every row is correct. */
  predicate CanMask(n: nat, correct: nat, gaining: nat) {
    correct > gaining && (gaining > 0 || correct == n)
  }

  /** Over the counts: some table the tracker can write hides a negative sum behind these counts exactly when correct
      rows outnumber gaining ones and some row gains or all are correct. */
  lemma MaskedExactlyWhen(n: nat, correct: nat, gaining: nat)
    requires correct <= n && gaining <= n
    ensures (exists rows :: Real(rows) && Counted(rows, n, correct, gaining) && Masked(rows))
       <==> CanMask(n, correct, gaining)
  {
    hide Counted, Masked, CanMask, Real;
    if CanMask(n, correct, gaining) {
      var rows := MaskingRows(n, correct, gaining);
    }
    forall rows | Counted(rows, n, correct, gaining) && Masked(rows)
      ensures CanMask(n, correct, gaining)
    {
      MaskedCounts(rows, n, correct, gaining);
    }
  }

  lemma MaskedCounts(rows: seq<Outcome>, n: nat, correct: nat, gaining: nat)
    requires correct <= n && Counted(rows, n, correct, gaining) && Masked(rows)
    ensures CanMask(n, correct, gaining)
  {
    hide Filter, SumBy, Ratio, Blend;
    if rows == [] {
      NoChange(rows);
    } else if correct <= gaining {
      HonestExpectancy(rows);
    } else if gaining == 0 && correct < n {
      OnlyLosses(rows);
    }
  }

  lemma NoChange(rows: seq<Outcome>)
    requires rows == []
    ensures SumBy(rows, Change()) == 0.0
  {
  }

  lemma OnlyLosses(rows: seq<Outcome>)
    requires |Filter(rows, Won())| < |rows| && |Filter(rows, Gaining())| == 0 && SumBy(rows, Change()) < 0.0
    ensures Expectancy(rows) < 0.0
  {
    hide Filter, SumBy, Ratio;
    GainsAndLosses(rows);
    FilterMembers(rows, Won());
    NoChange([]);
    assert Filter(rows, Gaining()) == [];
    assert GrossProfit(rows) == 0.0;
    ZeroRatio(0);
    RatioNonNegative(GrossLoss(rows), |Filter(rows, NotGaining())|);
    RatioAbove(|Filter(rows, Won())| as real, |rows|, 1.0);
    RatioEqual(|Filter(rows, Won())|, |rows|, |rows|);
    RatioSelf(|rows|);
    TimesZero(WinRate(rows));
    assert Times(1.0, |rows| as real) == |rows| as real;
    ProductPositive(1.0 - WinRate(rows), AverageLoss(rows));
  }

  lemma TimesZero(v: real)
    ensures Times(v, 0.0) == 0.0
  {
  }

  // ----- Records of calls

  /** Signals of a record come seven hours apart, so that no horizon of six reaches the next one's candle. */
  const SPACING: int := 7 * HOUR

  /** The outcome seen from the signal's side when it went against it, and no excursion beyond. */
  function WorstOf(signal: string, change: real): real {
    var move := if signal == "BUY" then change else -change;
    if move < 0.0 then move else 0.0
  }

  /** The `k`-th call of a record, with the row the tracker writes for it. */
  function Call(k: nat, symbol: string, signal: string, confidence: int, change: real): Outcome {
    var end := k * SPACING + HORIZON * HOUR;
    Outcome(Some(seq(k, i => 'x')), symbol, "1h", signal, Some("trend"), Some(confidence), Some(change),
            Some(WorstOf(signal, change)), Some(if signal == "BUY" then change > 0.0 else change < 0.0),
            Some(k * SPACING), Some(end), Some(end))
  }

  /** `k` like calls in a row. */
  function Calls(first: nat, k: nat, symbol: string, signal: string, confidence: int, change: real): seq<Outcome> {
    seq(k, i requires 0 <= i < k => Call(first + i, symbol, signal, confidence, change))
  }

  predicate IsCall(r: Outcome, k: nat) {
    && (r.signal == "BUY" || r.signal == "SELL") && r.confidence.Some? && r.priceChange.Some?
    && r.priceChange.value > -100.0
    && r == Call(k, r.symbol, r.signal, r.confidence.value, r.priceChange.value)
  }

  /** The rows are consecutive calls of a record. */
  ghost predicate Consecutive(rows: seq<Outcome>, first: nat) {
    forall i :: 0 <= i < |rows| ==> IsCall(rows[i], first + i)
  }

  lemma ConsecutiveConcat(a: seq<Outcome>, b: seq<Outcome>, first: nat)
    requires Consecutive(a, first) && Consecutive(b, first + |a|)
    ensures Consecutive(a + b, first)
  {
    hide IsCall;
    forall i | 0 <= i < |a + b|
      ensures IsCall((a + b)[i], first + i)
    {
      if i >= |a| {
        assert IsCall(b[i - |a|], first + |a| + (i - |a|));
      }
    }
  }

  lemma CallIsWritten(r: Outcome, k: nat)
    requires IsCall(r, k)
    ensures Written(r) && CandleOf(r).at == k * SPACING + HORIZON * HOUR && r.signalAt == Some(k * SPACING)
    ensures SignalOf(r).HorizonEnd() == k * SPACING + HORIZON * HOUR
  {
    assert CandleLength("1h") == HOUR;
  }

  /** Calls of one record can all be written by the tracker. */
  lemma RecordIsReal(rows: seq<Outcome>)
    requires Consecutive(rows, 0)
    ensures Real(rows) && forall r :: r in rows ==> Written(r)
  {
    forall i | 0 <= i < |rows|
      ensures Written(rows[i]) && rows[i].id.Some? && |rows[i].id.value| == i
    {
      assert IsCall(rows[i], i);
      CallIsWritten(rows[i], i);
    }
    hide Written, IsCall;
    forall i, j | 0 <= i < |rows| && 0 <= j < |rows| && i != j
      ensures !Shares(rows, i, j)
    {
      assert IsCall(rows[i], i) && IsCall(rows[j], j);
      CallIsWritten(rows[i], i);
      CallIsWritten(rows[j], j);
      hide CandleOf;
    }
    SeparateRowsAreReal(rows);
  }

  /** A call like the others of its list. */
  predicate LikeCall(r: Outcome, symbol: string, signal: string, confidence: int, change: real) {
    && r.symbol == symbol && r.timeframe == "1h" && r.regime == Some("trend")
    && r.signal == signal && r.confidence == Some(confidence) && r.priceChange == Some(change)
    && r.maxAdverse == Some(WorstOf(signal, change)) && Tracked(r)
  }

  ghost predicate Alike(rows: seq<Outcome>, symbol: string, signal: string, confidence: int, change: real) {
    forall r :: r in rows ==> LikeCall(r, symbol, signal, confidence, change)
  }

  lemma CallsAlike(first: nat, k: nat, symbol: string, signal: string, confidence: int, change: real)
    requires (signal == "BUY" || signal == "SELL") && change > -100.0
    ensures |Calls(first, k, symbol, signal, confidence, change)| == k
    ensures Alike(Calls(first, k, symbol, signal, confidence, change), symbol, signal, confidence, change)
    ensures Consecutive(Calls(first, k, symbol, signal, confidence, change), first)
  {
    var calls := Calls(first, k, symbol, signal, confidence, change);
    forall i | 0 <= i < k
      ensures LikeCall(calls[i], symbol, signal, confidence, change) && IsCall(calls[i], first + i)
    {
      OneCall(first + i, symbol, signal, confidence, change);
    }
    hide LikeCall, IsCall;
    forall r | r in calls
      ensures LikeCall(r, symbol, signal, confidence, change)
    {
      var i :| 0 <= i < k && calls[i] == r;
    }
  }

  lemma OneCall(k: nat, symbol: string, signal: string, confidence: int, change: real)
    requires (signal == "BUY" || signal == "SELL") && change > -100.0
    ensures var r := Call(k, symbol, signal, confidence, change);
            LikeCall(r, symbol, signal, confidence, change) && IsCall(r, k)
  {
  }

  /** Rows of one signal that all moved alike. */
  ghost predicate Moved(rows: seq<Outcome>, signal: string, change: real) {
    forall r :: r in rows ==> r.signal == signal && r.priceChange == Some(change) && Tracked(r)
  }

  lemma AlikeMoved(rows: seq<Outcome>, symbol: string, signal: string, confidence: int, change: real)
    requires Alike(rows, symbol, signal, confidence, change)
    ensures Moved(rows, signal, change)
  {
  }

  lemma MovedMeans(rows: seq<Outcome>, signal: string, change: real)
    requires Moved(rows, signal, change)
    ensures forall r :: r in rows ==> Won()(r) == if signal == "BUY" then change > 0.0 else change < 0.0
    ensures forall r :: r in rows ==> (Gaining()(r) <==> change > 0.0) && (Losing()(r) <==> change < 0.0)
    ensures forall r :: r in rows ==> (NotGaining()(r) <==> change <= 0.0) && Change()(r) == change
  {
    forall r | r in rows
      ensures (Gaining()(r) <==> change > 0.0) && (Losing()(r) <==> change < 0.0)
      ensures (NotGaining()(r) <==> change <= 0.0) && Change()(r) == change
    {
      assert Change()(r) == change;
    }
  }

  /** Rising BUYs, falling SELLs and falling BUYs. */
  ghost predicate Kinds(a: seq<Outcome>, rise: real, b: seq<Outcome>, sellFall: real, c: seq<Outcome>, buyFall: real) {
    rise > 0.0 && sellFall > 0.0 && buyFall > 0.0
    && Moved(a, "BUY", rise) && Moved(b, "SELL", -sellFall) && Moved(c, "BUY", -buyFall)
  }

  lemma KindsCounted(
    p: Outcome -> bool, a: seq<Outcome>, pa: bool, b: seq<Outcome>, pb: bool, c: seq<Outcome>, pc: bool)
    requires forall r :: r in a ==> p(r) == pa
    requires forall r :: r in b ==> p(r) == pb
    requires forall r :: r in c ==> p(r) == pc
    ensures Filter(a + b + c, p) == (if pa then a else []) + (if pb then b else []) + (if pc then c else [])
  {
    FilterThree(a, b, c, p);
    FilterUniform(a, p, pa);
    FilterUniform(b, p, pb);
    FilterUniform(c, p, pc);
  }

  lemma {:induction false} KindsSummed(
    f: Outcome -> real, a: seq<Outcome>, fa: real, b: seq<Outcome>, fb: real, c: seq<Outcome>, fc: real)
    requires forall r :: r in a ==> f(r) == fa
    requires forall r :: r in b ==> f(r) == fb
    requires forall r :: r in c ==> f(r) == fc
    ensures SumBy(a, f) == |a| as real * fa
    ensures SumBy(b + c, f) == |b| as real * fb + |c| as real * fc
    ensures SumBy(a + b + c, f) == |a| as real * fa + |b| as real * fb + |c| as real * fc
  {
    hide SumBy;
    SumUniform(a, f, fa);
    SumUniform(b, f, fb);
    SumUniform(c, f, fc);
    SumConcat(b, c, f);
    SumConcat(a, b + c, f);
    assert a + (b + c) == a + b + c;
  }

  lemma KindsFiltered(a: seq<Outcome>, rise: real, b: seq<Outcome>, sellFall: real, c: seq<Outcome>, buyFall: real)
    requires Kinds(a, rise, b, sellFall, c, buyFall)
    ensures var rows := a + b + c;
            && Filter(rows, Won()) == a + b && Filter(rows, Gaining()) == a
            && Filter(rows, NotGaining()) == b + c && Filter(rows, Losing()) == b + c
            && forall r :: r in rows ==> Tracked(r)
  {
    hide Filter, Tracked;
    MovedMeans(a, "BUY", rise);
    MovedMeans(b, "SELL", -sellFall);
    MovedMeans(c, "BUY", -buyFall);
    KindsCounted(Won(), a, true, b, true, c, false);
    KindsCounted(Gaining(), a, true, b, false, c, false);
    KindsCounted(NotGaining(), a, false, b, true, c, true);
    KindsCounted(Losing(), a, false, b, true, c, true);
    assert a + [] + [] == a && [] + b + c == b + c && a + b + [] == a + b;
  }

  /** The tuner's figures for such rows. */
  lemma KindsFigures(a: seq<Outcome>, rise: real, b: seq<Outcome>, sellFall: real, c: seq<Outcome>, buyFall: real)
    requires Kinds(a, rise, b, sellFall, c, buyFall)
    ensures var rows := a + b + c;
            && Counted(rows, |a| + |b| + |c|, |a| + |b|, |a|)
            && |Filter(rows, NotGaining())| == |b| + |c|
            && GrossProfit(rows) == |a| as real * rise
            && GrossLoss(rows) == |b| as real * sellFall + |c| as real * buyFall
            && SumBy(rows, Change()) == |a| as real * rise - (|b| as real * sellFall + |c| as real * buyFall)
  {
    hide Filter, SumBy, Tracked;
    KindsFiltered(a, rise, b, sellFall, c, buyFall);
    MovedMeans(a, "BUY", rise);
    MovedMeans(b, "SELL", -sellFall);
    MovedMeans(c, "BUY", -buyFall);
    KindsSummed(Change(), a, rise, b, -sellFall, c, -buyFall);
    NegatedProduct(|b| as real, sellFall);
    NegatedProduct(|c| as real, buyFall);
  }

  // ----- One record for every choice of counts and sizes

  /** Rising BUYs and falling SELLs at confidence 100, then falling BUYs at 0, the last of them in another market. */
  datatype Record = Record(
    buys: nat, rise: real, sells: nat, sellFall: real, falling: nat, others: nat, fall: real)
  {
    function RisingBuys(): seq<Outcome> {
      Calls(0, buys, "BTC/USDT", "BUY", 100, rise)
    }

    function FallingSells(): seq<Outcome> {
      Calls(buys, sells, "BTC/USDT", "SELL", 100, -sellFall)
    }

    function FallingBuys(): seq<Outcome> {
      Calls(buys + sells, falling, "BTC/USDT", "BUY", 0, -fall)
    }

    function OtherBuys(): seq<Outcome> {
      Calls(buys + sells + falling, others, "ETH/USDT", "BUY", 0, -fall)
    }

    function Right(): seq<Outcome> {
      RisingBuys() + FallingSells()
    }

    function Wrong(): seq<Outcome> {
      FallingBuys() + OtherBuys()
    }

    function Rows(): seq<Outcome> {
      Right() + Wrong()
    }

    function Size(): nat {
      buys + sells + falling + others
    }

    function Correct(): nat {
      buys + sells
    }

    function Loss(): real {
      Times(sells as real, sellFall) + Times((falling + others) as real, fall)
    }

    predicate Valid() {
      rise > 0.0 && 0.0 < sellFall < 100.0 && 0.0 < fall < 100.0
    }
  }

  lemma RecordParts(k: Record)
    requires k.Valid()
    ensures |k.RisingBuys()| == k.buys && |k.FallingSells()| == k.sells
    ensures |k.FallingBuys()| == k.falling && |k.OtherBuys()| == k.others
    ensures Alike(k.RisingBuys(), "BTC/USDT", "BUY", 100, k.rise)
    ensures Alike(k.FallingSells(), "BTC/USDT", "SELL", 100, -k.sellFall)
    ensures Alike(k.FallingBuys(), "BTC/USDT", "BUY", 0, -k.fall)
    ensures Alike(k.OtherBuys(), "ETH/USDT", "BUY", 0, -k.fall)
    ensures Consecutive(k.Rows(), 0)
  {
    hide Calls, Alike, Consecutive;
    CallsAlike(0, k.buys, "BTC/USDT", "BUY", 100, k.rise);
    CallsAlike(k.buys, k.sells, "BTC/USDT", "SELL", 100, -k.sellFall);
    CallsAlike(k.buys + k.sells, k.falling, "BTC/USDT", "BUY", 0, -k.fall);
    CallsAlike(k.buys + k.sells + k.falling, k.others, "ETH/USDT", "BUY", 0, -k.fall);
    ConsecutiveConcat(k.RisingBuys(), k.FallingSells(), 0);
    ConsecutiveConcat(k.FallingBuys(), k.OtherBuys(), k.buys + k.sells);
    ConsecutiveConcat(k.Right(), k.Wrong(), 0);
  }

  lemma RecordKinds(k: Record)
    requires k.Valid()
    ensures Kinds(k.RisingBuys(), k.rise, k.FallingSells(), k.sellFall, k.Wrong(), k.fall)
  {
    hide Record.RisingBuys, Record.FallingSells, Record.FallingBuys, Record.OtherBuys;
    RecordParts(k);
  }

  /** The tuner's figures for a record. */
  lemma RecordFigures(k: Record)
    requires k.Valid()
    ensures var rows := k.Rows();
            && Counted(rows, k.Size(), k.Correct(), k.buys)
            && |Filter(rows, NotGaining())| == k.sells + k.falling + k.others
            && GrossProfit(rows) == Times(k.buys as real, k.rise) && GrossLoss(rows) == k.Loss()
            && SumBy(rows, Change()) == Times(k.buys as real, k.rise) - k.Loss()
  {
    hide Record.RisingBuys, Record.FallingSells, Record.FallingBuys, Record.OtherBuys, Filter, SumBy, Counted,
      GrossProfit, GrossLoss, Kinds, Alike;
    RecordParts(k);
    RecordKinds(k);
    KindsFigures(k.RisingBuys(), k.rise, k.FallingSells(), k.sellFall, k.Wrong(), k.fall);
  }

  lemma NegatedProduct(k: real, v: real)
    requires k >= 0.0 && v > 0.0
    ensures k * -v == -(k * v) && k * v >= 0.0
  {
  }

  /** The sign of a blend weighed by counts. */
  lemma BlendSign(part: nat, whole: nat, win: real, loss: real)
    requires whole > 0 && part <= whole
    ensures Blend(Ratio(part as real, whole), win, loss) >= 0.0
       <==> Times(part as real, win) >= Times((whole - part) as real, loss)
  {
    ComplementShare(part, whole - part);
    ShareTimes(part, whole, win);
    ShareTimes(whole - part, whole, loss);
    RatioDifference(Times(part as real, win), Times((whole - part) as real, loss), whole);
    var gap := Times(part as real, win) - Times((whole - part) as real, loss);
    hide Ratio, Times;
    RatioAbove(gap, whole, 0.0);
    TimesZeroLeft(whole as real);
  }

  lemma ShareTimes(part: nat, whole: nat, v: real)
    requires whole > 0
    ensures Times(Ratio(part as real, whole), v) == Ratio(Times(part as real, v), whole)
  {
    var p, n := part as real, whole as real;
    assert p / n * v == p * v / n;
  }

  lemma RatioOfMultiple(k: nat, v: real)
    requires k > 0
    ensures Ratio(Times(k as real, v), k) == v
  {
  }

  /** With g gaining and c correct of n rows, gains of c(n-g) + g(n-c) and losses of 2cg lie strictly between the
      points where the expectancy and where the sum break even; both are scaled below one percent. */
  lemma MaskingRows(n: nat, correct: nat, gaining: nat) returns (rows: seq<Outcome>)
    requires correct <= n && CanMask(n, correct, gaining)
    ensures Real(rows) && Counted(rows, n, correct, gaining) && Masked(rows)
  {
    hide Record.Rows, Counted, Masked, Filter, SumBy, Real;
    if gaining == 0 {
      var k := Record(0, 1.0, n, 1.0, 0, 0, 1.0);
      rows := k.Rows();
      RecordFigures(k);
      RecordParts(k);
      RecordIsReal(rows);
      AllFalling(rows, n);
    } else {
      var up, down := correct * (n - gaining) + gaining * (n - correct), 2 * correct * gaining;
      SizesPositive(n, correct, gaining);
      Between(n, correct, gaining, up, down);
      rows := SizedRows(n, correct, gaining, up as real, down as real);
    }
  }

  lemma SizedRows(n: nat, c: nat, g: nat, up: real, down: real) returns (rows: seq<Outcome>)
    requires 0 < g < c <= n && up > 0.0 && down > 0.0
    requires Times(c as real, up) >= Times((n - c) as real, down)
    requires Times(g as real, up) < Times((n - g) as real, down)
    ensures Real(rows) && Counted(rows, n, c, g) && Masked(rows)
  {
    hide Counted, Masked, Real, Times;
    var t := ScaleBelowOne(up, down);
    ScaledOrders(n, c, g, up, down, t);
    rows := ScaledRows(n, c, g, up * t, down * t);
  }

  lemma Inverse(d: real) returns (t: real)
    requires d > 0.0
    ensures t > 0.0 && d * t == 1.0
  {
    t := 1.0 / d;
  }

  /** A factor that brings both sizes below one. */
  lemma ScaleBelowOne(up: real, down: real) returns (t: real)
    requires up > 0.0 && down > 0.0
    ensures t > 0.0 && 0.0 < up * t < 1.0 && 0.0 < down * t < 1.0
  {
    var all := 1.0 + up + down;
    t := Inverse(all);
    PartOfOne(up, all, t);
    PartOfOne(down, all, t);
  }

  lemma PartOfOne(part: real, whole: real, t: real)
    requires 0.0 < part < whole && t > 0.0 && whole * t == 1.0
    ensures 0.0 < part * t < 1.0
  {
    var w := whole * t;
    ProductOrder(part, whole, t);
    assert part * t < w;
    assert 0.0 * t == 0.0;
    ProductOrder(0.0, part, t);
  }

  lemma ScaledOrders(n: nat, c: nat, g: nat, up: real, down: real, t: real)
    requires g <= n && c <= n && t > 0.0
    requires Times(c as real, up) >= Times((n - c) as real, down)
    requires Times(g as real, up) < Times((n - g) as real, down)
    ensures Times(c as real, up * t) >= Times((n - c) as real, down * t)
    ensures Times(g as real, up * t) < Times((n - g) as real, down * t)
  {
    var x, y := c as real * up, (n - c) as real * down;
    ScaledOrder(x, y, t);
    assert c as real * (up * t) == x * t && (n - c) as real * (down * t) == y * t;
    var u, v := g as real * up, (n - g) as real * down;
    ProductOrder(u, v, t);
    assert g as real * (up * t) == u * t && (n - g) as real * (down * t) == v * t;
  }

  lemma ScaledRows(n: nat, c: nat, g: nat, rise: real, fall: real) returns (rows: seq<Outcome>)
    requires 0 < g < c <= n && 0.0 < rise < 1.0 && 0.0 < fall < 1.0
    requires Times(c as real, rise) >= Times((n - c) as real, fall)
    requires Times(g as real, rise) < Times((n - g) as real, fall)
    ensures Real(rows) && Counted(rows, n, c, g) && Masked(rows)
  {
    hide Record.Rows, Counted, Masked, Filter, SumBy, Times, GrossProfit, GrossLoss, Real;
    var k := Record(g, rise, c - g, fall, n - c, 0, fall);
    rows := k.Rows();
    RecordFigures(k);
    RecordParts(k);
    RecordIsReal(rows);
    SumOfShares(c - g, n - c, fall);
    BetweenMasks(rows, n, c, g, rise, fall);
  }

  lemma SumOfShares(a: nat, b: nat, v: real)
    ensures Times(a as real, v) + Times(b as real, v) == Times((a + b) as real, v)
  {
  }

  lemma AllFalling(rows: seq<Outcome>, n: nat)
    requires n > 0 && Counted(rows, n, n, 0)
    requires SumBy(rows, Change()) < 0.0
    ensures Masked(rows)
  {
    hide Filter, SumBy, Ratio, AverageLoss;
    RatioSelf(n);
    GainsAndLosses(rows);
    RatioNonNegative(GrossProfit(rows), |Filter(rows, Gaining())|);
    assert WinRate(rows) == 1.0;
    TimesZeroLeft(AverageLoss(rows));
    assert Times(1.0, AverageWin(rows)) == AverageWin(rows);
  }

  lemma {:induction false} BetweenMasks(rows: seq<Outcome>, n: nat, c: nat, g: nat, rise: real, fall: real)
    requires 0 < g < c <= n && Counted(rows, n, c, g)
    requires |Filter(rows, NotGaining())| == n - g
    requires GrossProfit(rows) == Times(g as real, rise) && GrossLoss(rows) == Times((n - g) as real, fall)
    requires SumBy(rows, Change()) == Times(g as real, rise) - Times((n - g) as real, fall)
    requires Times(c as real, rise) >= Times((n - c) as real, fall)
    requires Times(g as real, rise) < Times((n - g) as real, fall)
    ensures Masked(rows)
  {
    hide Filter, SumBy, Blend, GrossProfit, GrossLoss;
    RatioOfMultiple(n - g, fall);
    RatioOfMultiple(g, rise);
    assert AverageLoss(rows) == fall && AverageWin(rows) == rise;
    hide Ratio, AverageLoss, AverageWin;
    BlendSign(c, n, rise, fall);
  }

  lemma SizesPositive(n: nat, c: nat, g: nat)
    requires 0 < g < c <= n
    ensures c * (n - g) + g * (n - c) > 0 && 2 * c * g > 0
  {
    ProductOfPositives(c, n - g);
    ProductOfPositives(c, g);
    assert 2 * c * g == 2 * (c * g);
    AtLeastNothing(g, n - c);
  }

  lemma ProductOfPositives(a: nat, b: nat)
    requires a > 0 && b > 0
    ensures a * b > 0
  {
  }

  lemma AtLeastNothing(a: nat, b: nat)
    ensures a * b >= 0
  {
  }

  lemma Regroup(x: int, c: int, g: int)
    ensures x * (2 * c * g) == c * (2 * (g * x))
  {
  }

  lemma Crossing(n: int, c: int, g: int)
    ensures c * (n - g) - g * (n - c) == n * (c - g)
  {
  }

  lemma ScaleLess(k: nat, a: int, b: int)
    requires k > 0 && a < b
    ensures k * a < k * b
  {
  }

  lemma RealProduct(a: nat, b: nat)
    ensures (a * b) as real == a as real * b as real
  {
  }

  lemma {:induction false} Between(n: nat, c: nat, g: nat, up: nat, down: nat)
    requires 0 < g < c <= n
    requires up == c * (n - g) + g * (n - c) && down == 2 * c * g
    ensures Times(c as real, up as real) >= Times((n - c) as real, down as real)
    ensures Times(g as real, up as real) < Times((n - g) as real, down as real)
  {
    var u, v := c * (n - g), g * (n - c);
    Crossing(n, c, g);
    ProductOfPositives(n, c - g);
    assert v < u;
    Regroup(n - c, c, g);
    ScaleLess(c, 2 * v, u + v);
    SwapGroup(n - g, c, g);
    ScaleLess(g, u + v, 2 * u);
    RealProduct(c, up);
    RealProduct(n - c, down);
    RealProduct(g, up);
    RealProduct(n - g, down);
  }

  lemma SwapGroup(x: int, c: int, g: int)
    ensures x * (2 * c * g) == g * (2 * (c * x))
  {
  }
}
