/** The signal and account logic of libraries/client.js. Exchange calls are
    not modelled: what `fetchOHLCV`, `fetchBalance` and `fetchMyTrades` would
    return is passed in, and so are the clock reading and the two indicators
    of the `technicalindicators` library, which stay uninterpreted. */
module Client {
  import opened Common
  import Lists

  /** One row of an exchange OHLCV series. ccxt returns
      `[timestamp, open, high, low, close, volume]`, so field 3, the one the
      signal logic reads, is the low. */
  datatype Candle = Candle(timestamp: int, open: real, high: real, low: real, close: real, volume: real)

  /** One Bollinger Bands reading. */
  datatype Band = Band(lower: real, middle: real, upper: real)

  /** The library's RSI over a list of values (period 14), and its Bollinger
      Bands over a list of values (period 20) with a deviation multiplier. */
  type Rsi = seq<real> -> seq<real>
  type Bands = (seq<real>, real) -> seq<Band>

  /** The candle count requested from the exchange per pair. */
  const FetchLimit := 1000

  /** The number of resampled values one period looks at. */
  const WindowLength := 20

  /** `calculateRSI`: the library runs only on exactly 16 values (two RSI
      readings of period 14); any other length gives `false`. */
  function CalculateRSI(rsi: Rsi, lasts: seq<real>): (r: Option<seq<real>>)
    ensures r.Some? <==> |lasts| == 16
    ensures r.Some? ==> r.value == rsi(lasts)
  {
    if |lasts| == 16 then Some(rsi(lasts)) else None
  }

  /** `calculateBB`: the library runs only on exactly 20 values; any other
      length gives `false`. */
  function CalculateBB(bb: Bands, lasts: seq<real>, stddev: real): (r: Option<seq<Band>>)
    ensures r.Some? <==> |lasts| == 20
    ensures r.Some? ==> r.value == bb(lasts, stddev)
  {
    if |lasts| == 20 then Some(bb(lasts, stddev)) else None
  }

  /** The arguments each `getSignalsFor*` passes to `getSignals`: candles per
      hour in this timeframe, the periods (strides, in hours) to resample at,
      the band multiplier and the two RSI thresholds. */
  datatype Timeframe = Timeframe(name: string, inHour: int, periods: seq<int>, stddev: real, rsiLow: real, rsiUpper: real)

  /** What the callers guarantee: a positive stride for every period. */
  predicate WellFormed(tf: Timeframe) {
    tf.inHour >= 1 && forall i :: 0 <= i < |tf.periods| ==> tf.periods[i] >= 1
  }

  const ThreeMinutes := Timeframe("3m", 20, [1, 2], 2.0, 30.0, 70.0)
  const FiveMinutes := Timeframe("5m", 12, [1, 2, 3, 4], 1.9, 31.0, 70.0)
  const FifteenMinutes := Timeframe("15m", 4, [1, 2, 3, 4, 6, 8, 10, 12], 1.8, 32.0, 70.0)
  const ThirtyMinutes := Timeframe("30m", 2, [1, 2, 3, 4, 6, 8, 10, 12, 24], 1.7, 33.0, 70.0)
  const OneHour := Timeframe("1h", 1, [1, 2, 3, 4, 6, 8, 10, 12, 24], 1.6, 34.0, 70.0)

  /** Each period is greater than the one before it. */
  predicate PeriodsAscend(periods: seq<int>) {
    forall j :: 0 < j < |periods| ==> periods[j - 1] < periods[j]
  }

  /** The five timeframes of `getSignalsFor3Mins` .. `getSignalsFor1Hour`.
      Every period's window fits in one fetch, the low threshold sits below
      the high one, and from each timeframe to the next the band narrows by
      0.1 while the low threshold rises by one. */
  function Timeframes(): (t: seq<Timeframe>)
    ensures |t| == 5
    ensures forall i :: 0 <= i < |t| ==> WellFormed(t[i]) && t[i].rsiLow < t[i].rsiUpper
    ensures forall i, j :: 0 <= i < |t| && 0 <= j < |t[i].periods| ==>
      t[i].periods[j] * WindowLength * t[i].inHour <= FetchLimit
    ensures forall i :: 0 < i < |t| ==>
      t[i].stddev == t[i - 1].stddev - 0.1 && t[i].rsiLow == t[i - 1].rsiLow + 1.0
  {
    [ThreeMinutes, FiveMinutes, FifteenMinutes, ThirtyMinutes, OneHour]
  }

  /** Every configured list of periods ascends strictly. */
  lemma TimeframesAscend()
    ensures forall i :: 0 <= i < |Timeframes()| ==> PeriodsAscend(Timeframes()[i].periods)
  {
    assert PeriodsAscend(ThreeMinutes.periods);
    assert PeriodsAscend(FiveMinutes.periods);
    assert PeriodsAscend(FifteenMinutes.periods);
    assert PeriodsAscend(ThirtyMinutes.periods);
    assert PeriodsAscend(OneHour.periods);
  }

  // ----- resampling -----

  /** The candle the `k`-th value (oldest first) of a window comes from:
      counting back from the newest candle at steps of `stride`. */
  function WindowIndex(len: int, stride: int, k: int): int {
    len - 1 - (19 - k) * stride
  }

  lemma WindowIndexBounds(len: int, stride: int)
    requires 1 <= stride && 20 * stride <= len
    ensures forall k :: 0 <= k < 20 ==> 0 <= WindowIndex(len, stride, k) < len
    ensures forall k, k' :: 0 <= k < k' < 20 ==> WindowIndex(len, stride, k) < WindowIndex(len, stride, k')
    ensures WindowIndex(len, stride, 19) == len - 1
  {
    forall k | 0 <= k < 20 ensures 0 <= WindowIndex(len, stride, k) {
      assert (19 - k) * stride <= 19 * stride;
    }
    forall k, k' | 0 <= k < k' < 20 ensures WindowIndex(len, stride, k) < WindowIndex(len, stride, k') {
      assert (19 - k) * stride - (19 - k') * stride == (k' - k) * stride;
    }
  }

  /** The 20 lows the resampling loop collects, oldest first. */
  function Window(ohlcv: seq<Candle>, stride: int): (w: seq<real>)
    requires 1 <= stride && 20 * stride <= |ohlcv|
    ensures |w| == 20
  {
    WindowIndexBounds(|ohlcv|, stride);
    seq(20, k requires 0 <= k < 20 => ohlcv[WindowIndex(|ohlcv|, stride, k)].low)
  }

  /** The backward loop of `getSignals`: from the newest candle, at stride
      `period * inHour`, while the index stays within the last
      `period * 20 * inHour` candles, prepending field 3 and the timestamp.
      It visits exactly 20 candles, so its `lasts.length == 20` check always
      holds, and both lists come out oldest first. */
  method CollectLasts(ohlcv: seq<Candle>, period: int, inHour: int) returns (lasts: seq<real>, times: seq<int>)
    requires period >= 1 && inHour >= 1 && period * 20 * inHour <= |ohlcv|
    ensures lasts == Window(ohlcv, period * inHour)
    ensures |times| == 20
    ensures forall k :: 0 <= k < 20 ==> times[k] == ohlcv[WindowIndex(|ohlcv|, period * inHour, k)].timestamp
  {
    var stride := period * inHour;
    var oldest := |ohlcv| - period * 20 * inHour;
    assert oldest == |ohlcv| - 20 * stride;
    lasts, times := [], [];
    var o := |ohlcv| - 1;
    while o >= oldest
      invariant |lasts| == |times| <= 20
      invariant o == WindowIndex(|ohlcv|, stride, 19 - |lasts|)
      invariant oldest == |ohlcv| - 20 * stride
      invariant Collected(ohlcv, stride, lasts, times)
      decreases 20 - |lasts|
    {
      WindowIndexInside(|ohlcv|, stride, 19 - |lasts|);
      CollectedStep(ohlcv, stride, lasts, times);
      lasts := [ohlcv[o].low] + lasts;
      times := [ohlcv[o].timestamp] + times;
      o := o - stride;
    }
    WindowIndexInside(|ohlcv|, stride, 19 - |lasts|);
    assert |lasts| == 20;
    CollectedWindow(ohlcv, stride, lasts, times);
  }

  /** `lasts` and `times` hold the newest `|lasts|` window positions. */
  predicate Collected(ohlcv: seq<Candle>, stride: int, lasts: seq<real>, times: seq<int>)
    requires 1 <= stride && 20 * stride <= |ohlcv| && |lasts| == |times| <= 20
  {
    WindowIndexBounds(|ohlcv|, stride);
    forall j :: 0 <= j < |lasts| ==>
      lasts[j] == ohlcv[WindowIndex(|ohlcv|, stride, 20 - |lasts| + j)].low &&
      times[j] == ohlcv[WindowIndex(|ohlcv|, stride, 20 - |lasts| + j)].timestamp
  }

  lemma CollectedStep(ohlcv: seq<Candle>, stride: int, lasts: seq<real>, times: seq<int>)
    requires 1 <= stride && 20 * stride <= |ohlcv| && |lasts| == |times| < 20
    requires Collected(ohlcv, stride, lasts, times)
    ensures 0 <= WindowIndex(|ohlcv|, stride, 19 - |lasts|) < |ohlcv|
    ensures var c := ohlcv[WindowIndex(|ohlcv|, stride, 19 - |lasts|)];
      Collected(ohlcv, stride, [c.low] + lasts, [c.timestamp] + times)
  {
    WindowIndexBounds(|ohlcv|, stride);
  }

  lemma CollectedWindow(ohlcv: seq<Candle>, stride: int, lasts: seq<real>, times: seq<int>)
    requires 1 <= stride && 20 * stride <= |ohlcv| && |lasts| == |times| == 20
    requires Collected(ohlcv, stride, lasts, times)
    ensures lasts == Window(ohlcv, stride)
    ensures forall k :: 0 <= k < 20 ==> times[k] == ohlcv[WindowIndex(|ohlcv|, stride, k)].timestamp
  {
  }

  /** A step back of one stride moves to the previous window position, and
      a position lies within the last `20 * stride` candles exactly when it
      is one of the window's 20. */
  lemma WindowIndexInside(len: int, stride: int, k: int)
    requires stride >= 1 && k <= 19
    ensures WindowIndex(len, stride, k) - stride == WindowIndex(len, stride, k - 1)
    ensures WindowIndex(len, stride, k) >= len - 20 * stride <==> k >= 0
  {
    if k >= 0 {
      assert (19 - k) * stride <= 19 * stride;
    } else {
      assert (19 - k) * stride >= 20 * stride;
    }
  }

  // ----- the decision -----

  /** JavaScript truthiness of a number: zero is falsy. (NaN, also falsy,
      has no counterpart among the reals.) */
  predicate Truthy(x: real) {
    x != 0.0
  }

  /** The guard `last && rsi && rsi[0] && rsi[1] && bb && bb[0] &&
      bb[0].lower && bb[0].upper`. A missing array element is `undefined`,
      which is falsy. */
  predicate ReadingsPresent(last: real, rsi: Option<seq<real>>, bb: Option<seq<Band>>)
    ensures ReadingsPresent(last, rsi, bb) ==> rsi.Some? && bb.Some? && last != 0.0
  {
    && Truthy(last)
    && rsi.Some? && |rsi.value| >= 2 && Truthy(rsi.value[0]) && Truthy(rsi.value[1])
    && bb.Some? && |bb.value| >= 1 && Truthy(bb.value[0].lower) && Truthy(bb.value[0].upper)
  }

  /** RSI crosses up through the low threshold while the price is at or
      below the lower band. */
  predicate BuyRule(tf: Timeframe, last: real, rsiPre: real, rsiLast: real, bbLower: real)
    ensures BuyRule(tf, last, rsiPre, rsiLast, bbLower) ==> rsiPre < rsiLast && last <= bbLower
  {
    rsiPre <= tf.rsiLow && rsiLast > tf.rsiLow && bbLower >= last
  }

  /** RSI crosses down through the high threshold while the price is at or
      above the upper band. */
  predicate SellRule(tf: Timeframe, last: real, rsiPre: real, rsiLast: real, bbUpper: real)
    ensures SellRule(tf, last, rsiPre, rsiLast, bbUpper) ==> rsiLast < rsiPre && bbUpper <= last
  {
    rsiPre >= tf.rsiUpper && rsiLast < tf.rsiUpper && bbUpper <= last
  }

  /** The record `getSignals` pushes. */
  datatype Signal = Signal(
    denominator: string, numerator: string, pair: string, timeframe: string,
    inHour: int, period: int, stddev: real, rsilow: real, rsiupper: real,
    last: real, rsipre: real, rsilast: real, bblower: real, bbupper: real,
    buysignal: bool, sellsignal: bool, time: int)

  /** What a pushed record says about itself: the thresholds it was taken
      with, exactly one direction, buy exactly when the buy rule held (it is
      tried first) and sell only when the sell rule held, and every reading
      the guard required truthy. */
  predicate Fired(sig: Signal, tf: Timeframe) {
    && sig.timeframe == tf.name && sig.inHour == tf.inHour && sig.stddev == tf.stddev
    && sig.rsilow == tf.rsiLow && sig.rsiupper == tf.rsiUpper
    && sig.buysignal != sig.sellsignal
    && (sig.buysignal <==> BuyRule(tf, sig.last, sig.rsipre, sig.rsilast, sig.bblower))
    && (sig.sellsignal ==> SellRule(tf, sig.last, sig.rsipre, sig.rsilast, sig.bbupper))
    && Truthy(sig.last) && Truthy(sig.rsipre) && Truthy(sig.rsilast)
    && Truthy(sig.bblower) && Truthy(sig.bbupper)
  }

  /** What one window yields: RSI over its 16 newest values, the bands over
      all 20, the guard, then buy before sell. */
  function Evaluate(denominator: string, numerator: string, tf: Timeframe, period: int,
                    lasts: seq<real>, time: int, rsi: Rsi, bb: Bands): (r: Option<Signal>)
    requires |lasts| == 20
    ensures var rs, bs := rsi(lasts[4..]), bb(lasts, tf.stddev);
      r.Some? <==> (ReadingsPresent(lasts[19], Some(rs), Some(bs))
                    && (BuyRule(tf, lasts[19], rs[0], rs[1], bs[0].lower)
                        || SellRule(tf, lasts[19], rs[0], rs[1], bs[0].upper)))
    ensures var rs, bs := rsi(lasts[4..]), bb(lasts, tf.stddev);
      r.Some? ==>
        && Fired(r.value, tf) && r.value.last == lasts[19]
        && |rs| >= 2 && r.value.rsipre == rs[0] && r.value.rsilast == rs[1]
        && |bs| >= 1 && r.value.bblower == bs[0].lower && r.value.bbupper == bs[0].upper
        && r.value.denominator == denominator && r.value.numerator == numerator
        && r.value.pair == numerator + "/" + denominator
        && r.value.period == period && r.value.time == time
  {
    assert lasts[4..20] == lasts[4..] && lasts[0..20] == lasts;
    var last := lasts[19];
    var rs := CalculateRSI(rsi, lasts[4..20]);
    var bs := CalculateBB(bb, lasts[0..20], tf.stddev);
    if !ReadingsPresent(last, rs, bs) then None
    else
      var rsiPre, rsiLast := rs.value[0], rs.value[1];
      var bbLower, bbUpper := bs.value[0].lower, bs.value[0].upper;
      var buy := BuyRule(tf, last, rsiPre, rsiLast, bbLower);
      var sell := !buy && SellRule(tf, last, rsiPre, rsiLast, bbUpper);
      if buy || sell then
        Some(Signal(denominator, numerator, numerator + "/" + denominator, tf.name,
                    tf.inHour, period, tf.stddev, tf.rsiLow, tf.rsiUpper,
                    last, rsiPre, rsiLast, bbLower, bbUpper, buy, sell, time))
      else None
  }

  /** What one period of one pair contributes. Too short a series
      contributes nothing; a record, when there is one, is for this pair,
      period and time, is priced at the newest candle's field 3, and
      satisfies `Fired`. */
  function PeriodSignal(denominator: string, numerator: string, tf: Timeframe, period: int,
                        ohlcv: seq<Candle>, time: int, rsi: Rsi, bb: Bands): (r: Option<Signal>)
    requires tf.inHour >= 1 && period >= 1
    ensures period * 20 * tf.inHour > |ohlcv| ==> r.None?
    ensures r.Some? ==>
      && Fired(r.value, tf)
      && r.value.denominator == denominator && r.value.numerator == numerator
      && r.value.pair == numerator + "/" + denominator
      && r.value.period == period && r.value.time == time
      && |ohlcv| > 0 && r.value.last == ohlcv[|ohlcv| - 1].low
    ensures r.Some? ==> 20 * (period * tf.inHour) <= |ohlcv|
    ensures r.Some? ==>
      var w := Window(ohlcv, period * tf.inHour);
      var rs, bs := rsi(w[4..]), bb(w, tf.stddev);
      && |rs| >= 2 && r.value.rsipre == rs[0] && r.value.rsilast == rs[1]
      && |bs| >= 1 && r.value.bblower == bs[0].lower && r.value.bbupper == bs[0].upper
  {
    if period * 20 * tf.inHour <= |ohlcv| then
      var stride := period * tf.inHour;
      assert period * 20 * tf.inHour == 20 * stride;
      WindowIndexBounds(|ohlcv|, stride);
      Evaluate(denominator, numerator, tf, period, Window(ohlcv, stride), time, rsi, bb)
    else None
  }

  /** Inside the fetch-length gate the window always has the lengths both
      indicators require: RSI gets the 16 newest of the 20 values, the bands
      all of them. */
  lemma WindowPassesGates(ohlcv: seq<Candle>, stride: int, rsi: Rsi, bb: Bands, stddev: real)
    requires 1 <= stride && 20 * stride <= |ohlcv|
    ensures CalculateRSI(rsi, Window(ohlcv, stride)[4..20]) == Some(rsi(Window(ohlcv, stride)[4..]))
    ensures CalculateBB(bb, Window(ohlcv, stride)[0..20], stddev) == Some(bb(Window(ohlcv, stride), stddev))
  {
    var w := Window(ohlcv, stride);
    assert w[0..20] == w;
    assert w[4..20] == w[4..];
  }

  /** The converse of `PeriodSignal`'s contract: inside the length gate a
      period yields a record exactly when the guard passes on the window's
      readings and the buy or the sell rule holds on them. */
  lemma PeriodSignalEmitted(denominator: string, numerator: string, tf: Timeframe, period: int,
                            stride: int, ohlcv: seq<Candle>, time: int, rsi: Rsi, bb: Bands)
    requires tf.inHour >= 1 && period >= 1 && stride == period * tf.inHour && 20 * stride <= |ohlcv|
    ensures
      var w := Window(ohlcv, stride);
      var rs, bs := rsi(w[4..]), bb(w, tf.stddev);
      PeriodSignal(denominator, numerator, tf, period, ohlcv, time, rsi, bb).Some? <==>
        (ReadingsPresent(w[19], Some(rs), Some(bs))
         && (BuyRule(tf, w[19], rs[0], rs[1], bs[0].lower) || SellRule(tf, w[19], rs[0], rs[1], bs[0].upper)))
  {
    assert period * 20 * tf.inHour == 20 * stride;
    WindowPassesGates(ohlcv, stride, rsi, bb, tf.stddev);
  }

  /** The buy and sell rules exclude each other whenever the low threshold
      is below the high one, as in every configured timeframe; buy's
      precedence then never decides anything. */
  lemma RulesExclusive(tf: Timeframe, last: real, rsiPre: real, rsiLast: real, bbLower: real, bbUpper: real)
    requires tf.rsiLow < tf.rsiUpper
    ensures !(BuyRule(tf, last, rsiPre, rsiLast, bbLower) && SellRule(tf, last, rsiPre, rsiLast, bbUpper))
  {
  }

  /** A worked case: RSI 29 then 31 against a low threshold of 30, with the
      lower band at 105 over a price of 100, is a buy; with the band at 95
      it is neither. */
  lemma BuyExample()
    ensures BuyRule(ThreeMinutes, 100.0, 29.0, 31.0, 105.0)
    ensures !BuyRule(ThreeMinutes, 100.0, 29.0, 31.0, 95.0)
    ensures !SellRule(ThreeMinutes, 100.0, 29.0, 31.0, 120.0)
  {
  }

  /** The signals of one pair, in period order. */
  function PeriodsSignals(denominator: string, numerator: string, tf: Timeframe, periods: seq<int>,
                          ohlcv: seq<Candle>, time: int, rsi: Rsi, bb: Bands): (r: seq<Signal>)
    requires tf.inHour >= 1 && forall i :: 0 <= i < |periods| ==> periods[i] >= 1
    ensures forall k :: 0 <= k < |r| ==> r[k].numerator == numerator && r[k].period in periods
  {
    if |periods| == 0 then []
    else
      var last := periods[|periods| - 1];
      var s := PeriodSignal(denominator, numerator, tf, last, ohlcv, time, rsi, bb);
      PeriodsSignals(denominator, numerator, tf, periods[..|periods| - 1], ohlcv, time, rsi, bb)
        + (if s.Some? then [s.value] else [])
  }

  /** The signals of all pairs: pair by pair, each in period order. */
  function AllSignals(denominator: string, numerators: seq<string>, tf: Timeframe,
                      candles: seq<seq<Candle>>, time: int, rsi: Rsi, bb: Bands): (r: seq<Signal>)
    requires WellFormed(tf) && |candles| == |numerators|
    ensures forall k :: 0 <= k < |r| ==> r[k].numerator in numerators && r[k].period in tf.periods
  {
    if |numerators| == 0 then []
    else
      var n := |numerators| - 1;
      AllSignals(denominator, numerators[..n], tf, candles[..n], time, rsi, bb)
        + PeriodsSignals(denominator, numerators[n], tf, tf.periods, candles[n], time, rsi, bb)
  }

  /** `getSignals`: for every numerator (with its fetched series), for every
      period, the gated resampling, the indicators, the guard and the rule. */
  method GetSignals(denominator: string, numerators: seq<string>, tf: Timeframe,
                    candles: seq<seq<Candle>>, time: int, rsi: Rsi, bb: Bands) returns (signals: seq<Signal>)
    requires WellFormed(tf) && |candles| == |numerators|
    ensures signals == AllSignals(denominator, numerators, tf, candles, time, rsi, bb)
  {
    signals := [];
    var n := 0;
    while n < |numerators|
      invariant 0 <= n <= |numerators|
      invariant signals == AllSignals(denominator, numerators[..n], tf, candles[..n], time, rsi, bb)
    {
      var numerator := numerators[n];
      var ohlcv := candles[n];
      ghost var before := signals;
      var p := 0;
      while p < |tf.periods|
        invariant 0 <= p <= |tf.periods|
        invariant signals == before + PeriodsSignals(denominator, numerator, tf, tf.periods[..p], ohlcv, time, rsi, bb)
      {
        var period := tf.periods[p];
        assert tf.periods[..p + 1][..p] == tf.periods[..p];
        var sig := PeriodCheck(denominator, numerator, tf, period, ohlcv, time, rsi, bb);
        if sig.Some? {
          signals := signals + [sig.value];
        }
        p := p + 1;
      }
      assert tf.periods[..p] == tf.periods;
      assert numerators[..n + 1][..n] == numerators[..n];
      assert candles[..n + 1][..n] == candles[..n];
      n := n + 1;
    }
    assert numerators[..n] == numerators;
    assert candles[..n] == candles;
  }

  /** The body of `getSignals`' loop over the periods: the fetch-length
      gate, the resampling, both indicators, the guard and the rule, for one
      period of one pair. */
  method PeriodCheck(denominator: string, numerator: string, tf: Timeframe, period: int,
                     ohlcv: seq<Candle>, time: int, rsi: Rsi, bb: Bands) returns (sig: Option<Signal>)
    requires tf.inHour >= 1 && period >= 1
    ensures sig == PeriodSignal(denominator, numerator, tf, period, ohlcv, time, rsi, bb)
  {
    sig := None;
    if period * 20 * tf.inHour <= |ohlcv| {
      var lasts, times := CollectLasts(ohlcv, period, tf.inHour);
      if |lasts| == 20 {
        var last := lasts[19];
        var rs := CalculateRSI(rsi, lasts[4..20]);
        var bs := CalculateBB(bb, lasts[0..20], tf.stddev);
        if ReadingsPresent(last, rs, bs) {
          var buysignal := false;
          var sellsignal := false;
          var rsipre, rsilast := rs.value[0], rs.value[1];
          var bblower, bbupper := bs.value[0].lower, bs.value[0].upper;
          if rsipre <= tf.rsiLow && rsilast > tf.rsiLow && bblower >= last {
            buysignal := true;
          } else if rsipre >= tf.rsiUpper && rsilast < tf.rsiUpper && bbupper <= last {
            sellsignal := true;
          }
          if buysignal || sellsignal {
            sig := Some(Signal(denominator, numerator, numerator + "/" + denominator, tf.name, tf.inHour,
                               period, tf.stddev, tf.rsiLow, tf.rsiUpper, last, rsipre, rsilast,
                               bblower, bbupper, buysignal, sellsignal, time));
          }
        }
      }
    }
  }

  /** Every record `getSignals` returns satisfies `Fired`, names one of the
      numerators and one of the periods, and carries the run's time. */
  lemma {:induction false} AllSignalsFired(denominator: string, numerators: seq<string>, tf: Timeframe,
                                           candles: seq<seq<Candle>>, time: int, rsi: Rsi, bb: Bands)
    requires WellFormed(tf) && |candles| == |numerators|
    ensures forall sig :: sig in AllSignals(denominator, numerators, tf, candles, time, rsi, bb) ==>
      && Fired(sig, tf) && sig.numerator in numerators && sig.period in tf.periods
      && sig.pair == sig.numerator + "/" + denominator && sig.time == time
  {
    if |numerators| > 0 {
      var n := |numerators| - 1;
      AllSignalsFired(denominator, numerators[..n], tf, candles[..n], time, rsi, bb);
      PeriodsSignalsFired(denominator, numerators[n], tf, tf.periods, candles[n], time, rsi, bb);
    }
  }

  lemma {:induction false} PeriodsSignalsFired(denominator: string, numerator: string, tf: Timeframe, periods: seq<int>,
                                               ohlcv: seq<Candle>, time: int, rsi: Rsi, bb: Bands)
    requires tf.inHour >= 1 && forall i :: 0 <= i < |periods| ==> periods[i] >= 1
    ensures forall sig :: sig in PeriodsSignals(denominator, numerator, tf, periods, ohlcv, time, rsi, bb) ==>
      && Fired(sig, tf) && sig.numerator == numerator && sig.period in periods
      && sig.pair == numerator + "/" + denominator && sig.time == time
  {
    if |periods| > 0 {
      PeriodsSignalsFired(denominator, numerator, tf, periods[..|periods| - 1], ohlcv, time, rsi, bb);
    }
  }

  /** Output order is numerator-major: the signals for a list of pairs are
      those for its first part followed by those for the rest. */
  lemma {:induction false} AllSignalsAppend(denominator: string, ns1: seq<string>, ns2: seq<string>, tf: Timeframe,
                                            cs1: seq<seq<Candle>>, cs2: seq<seq<Candle>>, time: int, rsi: Rsi, bb: Bands)
    requires WellFormed(tf) && |cs1| == |ns1| && |cs2| == |ns2|
    ensures AllSignals(denominator, ns1 + ns2, tf, cs1 + cs2, time, rsi, bb)
      == AllSignals(denominator, ns1, tf, cs1, time, rsi, bb) + AllSignals(denominator, ns2, tf, cs2, time, rsi, bb)
    decreases |ns2|
  {
    if |ns2| == 0 {
      assert ns1 + ns2 == ns1 && cs1 + cs2 == cs1;
    } else {
      var n := |ns2| - 1;
      AllSignalsAppend(denominator, ns1, ns2[..n], tf, cs1, cs2[..n], time, rsi, bb);
      assert (ns1 + ns2)[..|ns1| + n] == ns1 + ns2[..n];
      assert (cs1 + cs2)[..|cs1| + n] == cs1 + cs2[..n];
    }
  }

  /** At most `|numerators| * |tf.periods|` records: one per numerator and
      period at most. */
  lemma {:induction false} AllSignalsCount(denominator: string, numerators: seq<string>, tf: Timeframe,
                                           candles: seq<seq<Candle>>, time: int, rsi: Rsi, bb: Bands)
    requires WellFormed(tf) && |candles| == |numerators|
    ensures |AllSignals(denominator, numerators, tf, candles, time, rsi, bb)| <= |numerators| * |tf.periods|
  {
    if |numerators| > 0 {
      var n := |numerators| - 1;
      AllSignalsCount(denominator, numerators[..n], tf, candles[..n], time, rsi, bb);
      PeriodsSignalsCount(denominator, numerators[n], tf, tf.periods, candles[n], time, rsi, bb);
      assert n * |tf.periods| + |tf.periods| == |numerators| * |tf.periods|;
    }
  }

  lemma {:induction false} PeriodsSignalsCount(denominator: string, numerator: string, tf: Timeframe, periods: seq<int>,
                                               ohlcv: seq<Candle>, time: int, rsi: Rsi, bb: Bands)
    requires tf.inHour >= 1 && forall i :: 0 <= i < |periods| ==> periods[i] >= 1
    ensures |PeriodsSignals(denominator, numerator, tf, periods, ohlcv, time, rsi, bb)| <= |periods|
  {
    if |periods| > 0 {
      PeriodsSignalsCount(denominator, numerator, tf, periods[..|periods| - 1], ohlcv, time, rsi, bb);
    }
  }

  /** No two records share a period. */
  predicate OnePerPeriod(r: seq<Signal>) {
    forall i, j :: 0 <= i < j < |r| ==> r[i].period != r[j].period
  }

  /** No two records share both a numerator and a period. */
  predicate OnePerSlot(r: seq<Signal>) {
    forall i, j :: 0 <= i < j < |r| ==> r[i].numerator != r[j].numerator || r[i].period != r[j].period
  }

  lemma {:induction false} AscendingBelow(periods: seq<int>, j: int, k: int)
    requires PeriodsAscend(periods) && 0 <= j < k < |periods|
    ensures periods[j] < periods[k]
    decreases k - j
  {
    if j + 1 < k {
      AscendingBelow(periods, j, k - 1);
    }
  }

  /** Strictly ascending periods, as every configured timeframe has, are
      distinct. */
  lemma AscendingDistinct(periods: seq<int>)
    requires PeriodsAscend(periods)
    ensures Distinct(periods)
  {
    forall j, k | 0 <= j < k < |periods| ensures periods[j] != periods[k] {
      AscendingBelow(periods, j, k);
    }
  }

  /** With distinct periods, one pair gets at most one record per period. */
  lemma {:induction false} PeriodsSignalsDistinct(denominator: string, numerator: string, tf: Timeframe, periods: seq<int>,
                                                  ohlcv: seq<Candle>, time: int, rsi: Rsi, bb: Bands)
    requires tf.inHour >= 1 && forall i :: 0 <= i < |periods| ==> periods[i] >= 1
    requires Distinct(periods)
    ensures OnePerPeriod(PeriodsSignals(denominator, numerator, tf, periods, ohlcv, time, rsi, bb))
  {
    if |periods| > 0 {
      var init := periods[..|periods| - 1];
      var last := periods[|periods| - 1];
      var prefix := PeriodsSignals(denominator, numerator, tf, init, ohlcv, time, rsi, bb);
      PeriodsSignalsDistinct(denominator, numerator, tf, init, ohlcv, time, rsi, bb);
      assert forall k :: 0 <= k < |init| ==> init[k] == periods[k] != last;
      var sig := PeriodSignal(denominator, numerator, tf, last, ohlcv, time, rsi, bb);
      var r := prefix + (if sig.Some? then [sig.value] else []);
      assert OnePerPeriod(prefix);
      forall i, j | 0 <= i < j < |r| ensures r[i].period != r[j].period {
        if j >= |prefix| {
          assert r[j] == sig.value && r[j].period == last;
          assert r[i] == prefix[i] && r[i].period in init;
        } else {
          assert r[i] == prefix[i] && r[j] == prefix[j];
        }
      }
    }
  }

  /** With distinct numerators and distinct periods, `getSignals` yields at
      most one record per (pair, period). */
  lemma {:induction false} AllSignalsDistinct(denominator: string, numerators: seq<string>, tf: Timeframe,
                                              candles: seq<seq<Candle>>, time: int, rsi: Rsi, bb: Bands)
    requires WellFormed(tf) && |candles| == |numerators|
    requires Distinct(numerators) && Distinct(tf.periods)
    ensures OnePerSlot(AllSignals(denominator, numerators, tf, candles, time, rsi, bb))
  {
    if |numerators| > 0 {
      var n := |numerators| - 1;
      var prefix := AllSignals(denominator, numerators[..n], tf, candles[..n], time, rsi, bb);
      var suffix := PeriodsSignals(denominator, numerators[n], tf, tf.periods, candles[n], time, rsi, bb);
      AllSignalsDistinct(denominator, numerators[..n], tf, candles[..n], time, rsi, bb);
      PeriodsSignalsDistinct(denominator, numerators[n], tf, tf.periods, candles[n], time, rsi, bb);
      assert forall k :: 0 <= k < n ==> numerators[..n][k] == numerators[k] != numerators[n];
      var r := prefix + suffix;
      assert OnePerSlot(prefix) && OnePerPeriod(suffix);
      forall i, j | 0 <= i < j < |r|
        ensures r[i].numerator != r[j].numerator || r[i].period != r[j].period
      {
        if j < |prefix| {
          assert r[i] == prefix[i] && r[j] == prefix[j];
        } else if i >= |prefix| {
          assert r[i] == suffix[i - |prefix|] && r[j] == suffix[j - |prefix|];
        } else {
          assert r[i] == prefix[i] && r[i].numerator in numerators[..n];
          assert r[j] == suffix[j - |prefix|] && r[j].numerator == numerators[n];
        }
      }
    }
  }

  // ----- balances and trades -----

  /** One entry of `balance.info.balances`, its `free` already parsed. */
  datatype Balance = Balance(asset: string, free: real)

  /** `getNumeratorBalance` over the fetched balances: the `free` of the
      first entry for the asset, or 0 when there is none. */
  method NumeratorBalance(balances: seq<Balance>, numerator: string) returns (free: real)
    ensures (exists i :: 0 <= i < |balances| && balances[i].asset == numerator && free == balances[i].free
               && forall j :: 0 <= j < i ==> balances[j].asset != numerator)
         || ((forall i :: 0 <= i < |balances| ==> balances[i].asset != numerator) && free == 0.0)
  {
    var b := 0;
    while b < |balances|
      invariant 0 <= b <= |balances|
      invariant forall j :: 0 <= j < b ==> balances[j].asset != numerator
    {
      if balances[b].asset == numerator {
        return balances[b].free;
      }
      b := b + 1;
    }
    return 0.0;
  }

  /** A trade as `fetchMyTrades` reports it (the fields the model keeps). */
  datatype Trade = Trade(id: string, timestamp: int, price: real, amount: real)

  /** One entry of `getTrades`' result. */
  datatype PairTrades = PairTrades(symbol: string, pair: string, trades: seq<Trade>)

  /** The comparator `(a, b) => b.timestamp - a.timestamp` as an ascending
      key: newest first. */
  function NewestFirst(t: Trade): real {
    -(t.timestamp as real)
  }

  /** `getTrades` over the fetched trades: one entry per numerator, in
      order, with its symbol and pair, and its trades newest first, a
      permutation of what was fetched in which equal timestamps keep the
      fetched order (the built-in sort is stable). */
  method GetTrades(denominator: string, numerators: seq<string>, fetched: seq<seq<Trade>>) returns (tx: seq<PairTrades>)
    requires |fetched| == |numerators|
    ensures |tx| == |numerators|
    ensures forall i :: 0 <= i < |tx| ==>
      && tx[i].symbol == numerators[i] + denominator
      && tx[i].pair == numerators[i] + "/" + denominator
      && tx[i].trades == Lists.SortBy(fetched[i], NewestFirst)
    ensures forall i, j, k :: 0 <= i < |tx| && 0 <= j < k < |tx[i].trades| ==>
      tx[i].trades[j].timestamp >= tx[i].trades[k].timestamp
    ensures forall i :: 0 <= i < |tx| ==> multiset(tx[i].trades) == multiset(fetched[i])
  {
    tx := [];
    var n := 0;
    while n < |numerators|
      invariant 0 <= n <= |numerators|
      invariant |tx| == n
      invariant forall i :: 0 <= i < n ==>
        && tx[i].symbol == numerators[i] + denominator
        && tx[i].pair == numerators[i] + "/" + denominator
        && tx[i].trades == Lists.SortBy(fetched[i], NewestFirst)
    {
      var numerator := numerators[n];
      var symbol := numerator + denominator;
      var pair := numerator + "/" + denominator;
      var trades := Lists.SortBy(fetched[n], NewestFirst);
      tx := tx + [PairTrades(symbol, pair, trades)];
      n := n + 1;
    }
    forall i, j, k | 0 <= i < |tx| && 0 <= j < k < |tx[i].trades|
      ensures tx[i].trades[j].timestamp >= tx[i].trades[k].timestamp
    {
      assert NewestFirst(tx[i].trades[j]) <= NewestFirst(tx[i].trades[k]);
    }
  }
}
