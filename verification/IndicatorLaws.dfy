/** The indicators in terms of the prices alone: sums over slices, recurrences and quotients. */
module IndicatorLaws {
  import opened Prelude
  import opened Series
  import opened Technical

  /** The sum of a series. */
  function Total(x: seq<real>): real {
    if x == [] then 0.0 else Total(x[..|x| - 1]) + x[|x| - 1]
  }

  lemma {:induction false} TotalOfRange(x: seq<real>, lo: nat, hi: nat)
    requires lo <= hi <= |x|
    ensures Total(x[lo..hi]) == RangeSum(x, lo, hi)
    decreases hi
  {
    if lo < hi {
      TotalOfRange(x, lo, hi - 1);
      assert x[lo..hi][..hi - lo - 1] == x[lo..hi - 1];
    }
  }

  /** m is the mean of x, which has w elements. */
  ghost predicate IsMean(m: real, x: seq<real>, w: int) {
    |x| == w && w as real * m == Total(x)
  }

  lemma MeanTimes(x: seq<real>, lo: nat, w: nat)
    requires 0 < w && lo + w <= |x|
    ensures IsMean(Mean(x, lo, w), x[lo..lo + w], w)
  {
    TotalOfRange(x, lo, lo + w);
    Undivide(RangeSum(x, lo, lo + w), w as real);
  }

  lemma Undivide(s: real, n: real)
    requires n != 0.0
    ensures n * (s / n) == s
  {
  }

  /** The common outcome of an indicator that needs `need` positive prices for a window of at least 1. */
  ghost predicate Guarded<T>(r: Result<T, Error>, prices: seq<real>, window: int, need: int) {
    && (r.Ok? <==> window >= 1 && |prices| >= need && forall k :: 0 <= k < |prices| ==> prices[k] > 0.0)
    && (r == Err(InsufficientData) <==> window >= 1 && |prices| < need)
    && (r.Err? ==> r.error == InsufficientData || r.error == InvalidInput)
  }

  lemma GuardsOfIndicators(prices: seq<real>, window: int)
    ensures Guarded(DailyReturnSpec(prices), prices, 1, 2)
    ensures Guarded(SmaSpec(prices, window), prices, window, window)
    ensures Guarded(EmaSpec(prices, window), prices, window, window)
    ensures Guarded(RsiSpec(prices, window), prices, window, window + 1)
    ensures Guarded(VolatilitySeriesSpec(prices, window), prices, window, window + 1)
    ensures Guarded(VolatilitySpec(prices, window), prices, window, window + 1)
  {
    hide Returns, Means, Smoothed, Rsis, Readings, ReadingAt;
  }

  // ---------- Daily returns and moving averages ----------

  lemma DailyReturnOnPrices(prices: seq<real>)
    requires DailyReturnSpec(prices).Ok?
    ensures var r := DailyReturnSpec(prices).value;
            |r| == |prices| - 1 && forall i :: 0 <= i < |r| ==> MovesTo(prices[i], prices[i + 1], r[i])
  {
    hide MovesTo;
    var r := DailyReturnSpec(prices).value;
    forall i | 0 <= i < |r|
      ensures MovesTo(prices[i], prices[i + 1], r[i])
    {
      QuotientMovesTo(prices[i], prices[i + 1], r[i]);
    }
  }

  /** The relative move x takes price a to price b. */
  predicate MovesTo(a: real, b: real, x: real) {
    a * (1.0 + x) == b
  }

  lemma QuotientMovesTo(a: real, b: real, x: real)
    requires a > 0.0
    ensures x == b / a - 1.0 <==> MovesTo(a, b, x)
  {
    Undivide(b, a);
    if MovesTo(a, b, x) {
      DivUnique(1.0 + x, a, b);
    }
  }

  /** Output i times the window is the sum of the prices i..i+window-1. */
  lemma SmaOnPrices(prices: seq<real>, window: int)
    requires SmaSpec(prices, window).Ok?
    ensures var m := SmaSpec(prices, window).value;
            && |m| == |prices| - window + 1
            && forall i :: 0 <= i < |m| ==> IsMean(m[i], prices[i..i + window], window)
  {
    hide Mean, IsMean;
    var m := SmaSpec(prices, window).value;
    forall i | 0 <= i < |m|
      ensures IsMean(m[i], prices[i..i + window], window)
    {
      MeanTimes(prices, i, window);
    }
  }

  /** e starts with the mean of the first w elements and moves by 2/(w+1) of the distance to each later one. */
  ghost predicate MovesBy(e: seq<real>, x: seq<real>, w: int) {
    && 1 <= w <= |x| && |e| == |x| - w + 1 && IsMean(e[0], x[..w], w)
    && forall i :: 0 <= i < |e| - 1 ==> MovesOnce(e[i], e[i + 1], x[w + i], w as real)
  }

  predicate MovesOnce(before: real, after: real, v: real, w: real) {
    (w + 1.0) * after == 2.0 * v + (w - 1.0) * before
  }

  lemma EmaOnPrices(prices: seq<real>, window: int)
    requires EmaSpec(prices, window).Ok?
    ensures MovesBy(EmaSpec(prices, window).value, prices, window)
  {
    hide Smooth, Mean, Blend, Alpha, MovesOnce;
    var e, w, a := EmaSpec(prices, window).value, window as nat, Alpha(window);
    SmoothStart(prices, w, a);
    MeanTimes(prices, 0, w);
    assert prices[0..w] == prices[..w];
    forall i | 0 <= i < |e| - 1
      ensures MovesOnce(e[i], e[i + 1], prices[w + i], w as real)
    {
      SmoothStep(prices, w, a, i);
      BlendMoves(prices[w + i], e[i], w);
    }
  }

  lemma BlendMoves(u: real, v: real, w: nat)
    ensures MovesOnce(v, Blend(u, v, Alpha(w)), u, w as real)
  {
    var n, a := w as real + 1.0, Alpha(w);
    assert (w + 1) as real == n;
    Undivide(2.0, n);
    assert n * (u * a + v * (1.0 - a)) == u * (n * a) + v * (n - n * a);
  }

  // ---------- Relative Strength Index ----------

  /** up and down are the rises and the falls of the prices, each 0 where the price moves the other way. */
  ghost predicate RisesAndFalls(prices: seq<real>, up: seq<real>, down: seq<real>) {
    && |up| + 1 == |prices| && |down| + 1 == |prices|
    && forall k :: 0 <= k < |up| ==>
         && up[k] == (if prices[k + 1] > prices[k] then prices[k + 1] - prices[k] else 0.0)
         && down[k] == (if prices[k + 1] < prices[k] then prices[k] - prices[k + 1] else 0.0)
  }

  lemma Movements(prices: seq<real>) returns (up: seq<real>, down: seq<real>)
    requires |prices| >= 1
    ensures RisesAndFalls(prices, up, down)
  {
    up := seq(|prices| - 1, k requires 0 <= k < |prices| - 1 =>
      if prices[k + 1] > prices[k] then prices[k + 1] - prices[k] else 0.0);
    down := seq(|prices| - 1, k requires 0 <= k < |prices| - 1 =>
      if prices[k + 1] < prices[k] then prices[k] - prices[k + 1] else 0.0);
  }

  /** s starts with the mean of the first `period` moves; each later move counts 1 and the history period-1. */
  ghost predicate Averaged(s: seq<real>, moves: seq<real>, period: int) {
    && 1 <= period <= |moves| && |s| == |moves| - period + 1 && IsMean(s[0], moves[..period], period)
    && forall i :: 0 <= i < |s| - 1 ==> AveragedOnce(s[i], s[i + 1], moves[period + i], period as real)
  }

  predicate AveragedOnce(before: real, after: real, move: real, period: real) {
    period * after == (period - 1.0) * before + move
  }

  /** r is the share of g in g + l in percent, and 50 when both are zero. */
  predicate ShareOf(r: real, g: real, l: real) {
    g >= 0.0 && l >= 0.0 && if g + l == 0.0 then r == 50.0 else r * (g + l) == 100.0 * g
  }

  lemma WilderAverages(x: seq<real>, period: nat)
    requires 0 < period <= |x| && forall k :: 0 <= k < |x| ==> x[k] >= 0.0
    ensures Averaged(WilderSeries(x, period), x, period)
  {
    hide Wilder, Mean, NextAverage, AveragedOnce;
    var s := WilderSeries(x, period);
    WilderStart(x, period);
    MeanTimes(x, 0, period);
    assert x[0..period] == x[..period];
    forall i | 0 <= i < |s| - 1
      ensures AveragedOnce(s[i], s[i + 1], x[period + i], period as real)
    {
      NextIsAveraged(s[i], x[period + i], period);
    }
  }

  lemma NextIsAveraged(avg: real, cur: real, period: nat)
    requires period > 0
    ensures AveragedOnce(avg, NextAverage(avg, cur, period), cur, period as real)
  {
    var n := period as real;
    assert (period - 1) as real == n - 1.0;
    Undivide(avg * (n - 1.0) + cur, n);
  }

  lemma ShareIsShare(g: real, l: real)
    requires g >= 0.0 && l >= 0.0
    ensures ShareOf(GainShare(g, l), g, l)
  {
    if g + l != 0.0 {
      Undivide(100.0 * g, g + l);
    }
  }

  /** Every reading is the share of the averaged rises in the averaged rises and falls of the prices. */
  lemma RsiOnPrices(prices: seq<real>, period: int, up: seq<real>, down: seq<real>)
    requires RsiSpec(prices, period).Ok? && RisesAndFalls(prices, up, down)
    ensures exists gs, ls :: Averaged(gs, up, period) && Averaged(ls, down, period) &&
                             SharesOf(RsiSpec(prices, period).value, gs, ls)
  {
    hide Wilder, GainShare, ShareOf, Averages;
    assert up == Gains(prices) && down == Losses(prices);
    var gs, ls := WilderSeries(up, period), WilderSeries(down, period);
    WilderAverages(up, period);
    WilderAverages(down, period);
    var r := RsiSpec(prices, period).value;
    forall i | 0 <= i < |r|
      ensures |gs| == |ls| == |r| && ShareOf(r[i], gs[i], ls[i])
    {
      hide Averaged;
      LengthOfSeries(up, period);
      LengthOfSeries(down, period);
      ShareIsShare(gs[i], ls[i]);
    }
    LengthOfSeries(up, period);
    assert SharesOf(r, gs, ls);
  }

  lemma LengthOfSeries(x: seq<real>, period: nat)
    requires 0 < period <= |x| && forall k :: 0 <= k < |x| ==> x[k] >= 0.0
    ensures |WilderSeries(x, period)| == |x| - period + 1
    ensures forall i :: 0 <= i < |WilderSeries(x, period)| ==> WilderSeries(x, period)[i] >= 0.0
  {
  }

  ghost predicate SharesOf(r: seq<real>, gs: seq<real>, ls: seq<real>) {
    |gs| == |ls| == |r| && forall i :: 0 <= i < |r| ==> ShareOf(r[i], gs[i], ls[i])
  }

  /** An average of zeros is zero, an average of positive moves is positive. */
  lemma {:induction false} AveragedSign(s: seq<real>, moves: seq<real>, period: int, i: nat)
    requires Averaged(s, moves, period) && i < |s|
    ensures (forall k :: 0 <= k < |moves| ==> moves[k] == 0.0) ==> s[i] == 0.0
    ensures (forall k :: 0 <= k < |moves| ==> moves[k] > 0.0) ==> s[i] > 0.0
    decreases i
  {
    hide AveragedOnce;
    if i == 0 {
      TotalSign(moves[..period]);
      SignOfMean(s[0], Total(moves[..period]), period as real);
    } else {
      AveragedSign(s, moves, period, i - 1);
      assert AveragedOnce(s[i - 1], s[i - 1 + 1], moves[period + i - 1], period as real);
      SignOfNext(s[i - 1], s[i], moves[period + i - 1], period as real);
    }
  }

  lemma SignOfMean(m: real, t: real, n: real)
    requires n > 0.0 && n * m == t
    ensures (t == 0.0 ==> m == 0.0) && (t > 0.0 ==> m > 0.0)
  {
    if m < 0.0 {
      MulNonneg(n, -m);
    }
  }

  lemma SignOfNext(before: real, after: real, move: real, n: real)
    requires n >= 1.0 && AveragedOnce(before, after, move, n)
    ensures before == 0.0 && move == 0.0 ==> after == 0.0
    ensures before > 0.0 && move > 0.0 ==> after > 0.0
  {
    if before > 0.0 && move > 0.0 {
      MulNonneg(n - 1.0, before);
    }
    SignOfMean(after, (n - 1.0) * before + move, n);
  }

  lemma {:induction false} TotalSign(x: seq<real>)
    ensures (forall k :: 0 <= k < |x| ==> x[k] == 0.0) ==> Total(x) == 0.0
    ensures |x| > 0 && (forall k :: 0 <= k < |x| ==> x[k] > 0.0) ==> Total(x) > 0.0
    decreases |x|
  {
    if x != [] {
      TotalSign(x[..|x| - 1]);
      assert forall k :: 0 <= k < |x| - 1 ==> x[..|x| - 1][k] == x[k];
    }
  }

  predicate RisesThroughout(prices: seq<real>) {
    forall k :: 0 <= k < |prices| - 1 ==> prices[k] < prices[k + 1]
  }

  predicate FallsThroughout(prices: seq<real>) {
    forall k :: 0 <= k < |prices| - 1 ==> prices[k] > prices[k + 1]
  }

  lemma MonotoneMovements(prices: seq<real>, up: seq<real>, down: seq<real>)
    requires RisesAndFalls(prices, up, down)
    ensures RisesThroughout(prices) ==>
              forall k :: 0 <= k < |up| ==> up[k] > 0.0 && down[k] == 0.0
    ensures FallsThroughout(prices) ==>
              forall k :: 0 <= k < |up| ==> up[k] == 0.0 && down[k] > 0.0
  {
    forall k | 0 <= k < |up|
      ensures RisesThroughout(prices) ==> up[k] > 0.0 && down[k] == 0.0
      ensures FallsThroughout(prices) ==> up[k] == 0.0 && down[k] > 0.0
    {
      assert RisesThroughout(prices) ==> prices[k] < prices[k + 1];
      assert FallsThroughout(prices) ==> prices[k] > prices[k + 1];
    }
  }

  /** Strictly rising prices read 100 everywhere, strictly falling ones 0. */
  lemma RsiOfMonotonePrices(prices: seq<real>, period: int)
    requires RsiSpec(prices, period).Ok?
    ensures RisesThroughout(prices) ==>
              forall i :: 0 <= i < |prices| - period ==> RsiSpec(prices, period).value[i] == 100.0
    ensures FallsThroughout(prices) ==>
              forall i :: 0 <= i < |prices| - period ==> RsiSpec(prices, period).value[i] == 0.0
  {
    hide RsiSpec, Averaged, ShareOf, RisesAndFalls;
    GuardsOfIndicators(prices, period);
    var up, down := Movements(prices);
    RsiOnPrices(prices, period, up, down);
    var r := RsiSpec(prices, period).value;
    var gs, ls :| Averaged(gs, up, period) && Averaged(ls, down, period) && SharesOf(r, gs, ls);
    AveragedLength(gs, up, period);
    MonotoneMovements(prices, up, down);
    forall i | 0 <= i < |prices| - period
      ensures RisesThroughout(prices) ==> r[i] == 100.0
      ensures FallsThroughout(prices) ==> r[i] == 0.0
    {
      AveragedSign(gs, up, period, i);
      AveragedSign(ls, down, period, i);
      PureShare(r[i], gs[i], ls[i]);
    }
  }

  lemma AveragedLength(s: seq<real>, moves: seq<real>, period: int)
    requires Averaged(s, moves, period)
    ensures |s| == |moves| - period + 1
  {
  }

  lemma PureShare(r: real, g: real, l: real)
    requires ShareOf(r, g, l)
    ensures g > 0.0 && l == 0.0 ==> r == 100.0
    ensures g == 0.0 && l > 0.0 ==> r == 0.0
  {
    if g > 0.0 && l == 0.0 {
      SameFactor(g, r, 100.0);
    } else if g == 0.0 && l > 0.0 {
      SameFactor(l, r, 0.0);
    }
  }

  // ---------- Volatility ----------

  /** x are the relative moves of w prices after number i. */
  ghost predicate RelativeMoves(x: seq<real>, prices: seq<real>, i: int, w: int) {
    && 0 <= i && |x| == w && i + w < |prices|
    && forall k :: 0 <= k < w ==> MovesTo(prices[i + k], prices[i + k + 1], x[k])
  }

  /** d are the squared distances of x from its mean m. */
  ghost predicate Squares(d: seq<real>, x: seq<real>, m: real) {
    && |d| == |x| && |x| as real * m == Total(x)
    && forall k :: 0 <= k < |x| ==> d[k] == (x[k] - m) * (x[k] - m)
  }

  lemma Distances(prices: seq<real>, i: nat, w: nat) returns (x: seq<real>, m: real, d: seq<real>)
    requires 0 < w && i + w < |prices| && forall k :: 0 <= k < |prices| ==> prices[k] > 0.0
    ensures RelativeMoves(x, prices, i, w) && Squares(d, x, m)
  {
    hide MovesTo, Total;
    x := seq(w, k requires 0 <= k < w => prices[i + k + 1] / prices[i + k] - 1.0);
    forall k | 0 <= k < w
      ensures MovesTo(prices[i + k], prices[i + k + 1], x[k])
    {
      QuotientMovesTo(prices[i + k], prices[i + k + 1], x[k]);
    }
    m := Total(x) / (w as real);
    Undivide(Total(x), w as real);
    var mean := m;
    d := seq(w, k requires 0 <= k < w => (x[k] - mean) * (x[k] - mean));
  }

  /** Reading i roots the squared distances of the returns i..i+window-1 from their mean, over window-1. */
  lemma VolatilityOnPrices(prices: seq<real>, window: int, i: nat, x: seq<real>, m: real, d: seq<real>)
    requires VolatilitySeriesSpec(prices, window).Ok? && i + window < |prices|
    requires RelativeMoves(x, prices, i, window) && Squares(d, x, m)
    ensures var s := VolatilitySeriesSpec(prices, window).value;
            && |s| == |prices| - window
            && (window > 1 ==> s[i].radicand.Number? && (window as real - 1.0) * s[i].radicand.value == Total(d))
            && VolatilitySpec(prices, window) == Ok(s[|s| - 1])
  {
    hide Scatter, Returns, Squares, RelativeMoves, Divide;
    ScatterOnPrices(prices, window, i, x, m, d);
    if window > 1 {
      QuotientTimes(Scatter(Returns(prices), i, window), window);
    }
  }

  lemma QuotientTimes(s: real, window: nat)
    requires window > 1
    ensures var q := Divide(s, (window - 1) as real); q.Number? && (window as real - 1.0) * q.value == s
  {
    assert (window - 1) as real == window as real - 1.0;
    Undivide(s, window as real - 1.0);
  }

  lemma ScatterOnPrices(prices: seq<real>, window: nat, i: nat, x: seq<real>, m: real, d: seq<real>)
    requires 0 < window && AllPositive(prices) && i + window < |prices|
    requires RelativeMoves(x, prices, i, window) && Squares(d, x, m)
    ensures Scatter(Returns(prices), i, window) == Total(d)
  {
    hide Scatter, Mean, DeviationSum, Squares, Total;
    var r := Returns(prices);
    ReturnsAreMoves(prices, window, i, x);
    assert x == r[i..i + window];
    MeanOfSlice(r, i, window, x, m, d);
    TwoPassScatter(r, i, window);
    DistancesOfSlice(r, i, window, x, m, d);
  }

  lemma MeanOfSlice(r: seq<real>, i: nat, w: nat, x: seq<real>, m: real, d: seq<real>)
    requires 0 < w && i + w <= |r| && x == r[i..i + w] && Squares(d, x, m)
    ensures m == Mean(r, i, w)
  {
    hide Mean, Total;
    MeanTimes(r, i, w);
    SameMean(w as real, m, Mean(r, i, w), Total(x));
  }

  lemma DistancesOfSlice(r: seq<real>, i: nat, w: nat, x: seq<real>, m: real, d: seq<real>)
    requires i + w <= |r| && x == r[i..i + w] && Squares(d, x, m)
    ensures Total(d) == DeviationSum(r, i, i + w, m)
  {
    hide Total, DeviationSum;
    SquaresTotal(r, i, i + w, m, d);
  }

  lemma SameMean(n: real, a: real, b: real, t: real)
    requires n > 0.0 && n * a == t && n * b == t
    ensures a == b
  {
  }

  lemma SameFactor(n: real, a: real, b: real)
    requires n != 0.0 && n * a == n * b
    ensures a == b
  {
  }

  lemma ReturnsAreMoves(prices: seq<real>, window: int, i: nat, x: seq<real>)
    requires |prices| >= 1 && AllPositive(prices) && RelativeMoves(x, prices, i, window)
    ensures i + window <= |Returns(prices)| && forall k :: 0 <= k < window ==> x[k] == Returns(prices)[i + k]
  {
    hide MovesTo;
    var r := Returns(prices);
    forall k | 0 <= k < window
      ensures x[k] == r[i + k]
    {
      QuotientMovesTo(prices[i + k], prices[i + k + 1], x[k]);
      assert r[i + k] == prices[i + k + 1] / prices[i + k] - 1.0;
    }
  }

  lemma {:induction false} SquaresTotal(r: seq<real>, lo: nat, hi: nat, m: real, d: seq<real>)
    requires lo <= hi <= |r| && |d| == hi - lo
    requires forall k :: 0 <= k < hi - lo ==> d[k] == (r[lo + k] - m) * (r[lo + k] - m)
    ensures Total(d) == DeviationSum(r, lo, hi, m)
    decreases hi
  {
    if lo < hi {
      SquaresTotal(r, lo, hi - 1, m, d[..hi - lo - 1]);
    }
  }
}
