/**
 The indicator engine: each method runs the accumulator loop of the Go function of the same
 name and is proved against a closed mathematical form. float64 is modelled by real.
 */
module Technical {
  import opened Prelude
  import opened Series

  datatype Error = InsufficientData | InvalidInput | Undefined

  type Outcome = Result<seq<real>, Error>

  predicate AllPositive(v: seq<real>) {
    forall i :: 0 <= i < |v| ==> v[i] > 0.0
  }

  /** The common guards of the indicators, in the order in which they are tried. */
  function Rejection(v: seq<real>, window: int, need: int): Option<Error> {
    if window < 1 then Some(InvalidInput)
    else if |v| < need then Some(InsufficientData)
    else if !AllPositive(v) then Some(InvalidInput)
    else None
  }

  method CheckPositive(v: seq<real>) returns (ok: bool)
    ensures ok <==> AllPositive(v)
  {
    for i := 0 to |v|
      invariant forall k :: 0 <= k < i ==> v[k] > 0.0
    {
      if v[i] <= 0.0 {
        return false;
      }
    }
    return true;
  }

  // ---------- Daily returns ----------

  function Returns(prices: seq<real>): (r: seq<real>)
    requires |prices| >= 1 && AllPositive(prices)
    ensures |r| == |prices| - 1
    ensures forall i :: 0 <= i < |r| ==> r[i] == prices[i + 1] / prices[i] - 1.0
  {
    seq(|prices| - 1, i requires 0 <= i < |prices| - 1 => prices[i + 1] / prices[i] - 1.0)
  }

  function DailyReturnSpec(prices: seq<real>): Outcome {
    match Rejection(prices, 1, 2)
    case Some(e) => Err(e)
    case None => Ok(Returns(prices))
  }

  method DailyReturn(prices: seq<real>) returns (r: Outcome)
    ensures r == DailyReturnSpec(prices)
  {
    if |prices| < 2 {
      return Err(InsufficientData);
    }
    var ok := CheckPositive(prices);
    if !ok {
      return Err(InvalidInput);
    }
    var out := new real[|prices| - 1];
    for i := 1 to |prices|
      invariant forall k :: 0 <= k < i - 1 ==> out[k] == Returns(prices)[k]
    {
      out[i - 1] := prices[i] / prices[i - 1] - 1.0;
    }
    assert out[..] == Returns(prices);
    return Ok(out[..]);
  }

  // ---------- Moving averages ----------

  function SmaSpec(prices: seq<real>, window: int): Outcome {
    match Rejection(prices, window, window)
    case Some(e) => Err(e)
    case None => Ok(Means(prices, window))
  }

  /** The naive mean of every window, oldest first. */
  function Means(x: seq<real>, w: nat): (m: seq<real>)
    requires 0 < w <= |x|
    ensures |m| == |x| - w + 1 && forall i :: 0 <= i < |m| ==> m[i] == Mean(x, i, w)
  {
    seq(|x| - w + 1, i requires 0 <= i < |x| - w + 1 => Mean(x, i, w))
  }

  method SMA(prices: seq<real>, window: int) returns (r: Outcome)
    ensures r == SmaSpec(prices, window)
  {
    if window < 1 {
      return Err(InvalidInput);
    }
    if |prices| < window {
      return Err(InsufficientData);
    }
    var ok := CheckPositive(prices);
    if !ok {
      return Err(InvalidInput);
    }
    var out := new real[|prices| - window + 1];
    var sum := 0.0;
    for i := 0 to |prices|
      invariant sum == RangeSum(prices, if i < window then 0 else i - window, i)
      invariant forall k :: 0 <= k < i - window + 1 ==> out[k] == Mean(prices, k, window)
    {
      sum := sum + prices[i];
      if i >= window {
        RangeSumSplit(prices, i - window, i - window + 1, i + 1);
        sum := sum - prices[i - window];
      }
      if i >= window - 1 {
        out[i - window + 1] := sum / (window as real);
      }
    }
    assert out[..] == Means(prices, window);
    return Ok(out[..]);
  }

  /** The same rolling mean over volumes, in a loop of its own; a zero volume anywhere is an error. */
  method AverageVolume(volumes: seq<real>, window: int) returns (r: Outcome)
    ensures r == SmaSpec(volumes, window)
  {
    if window < 1 {
      return Err(InvalidInput);
    }
    if |volumes| < window {
      return Err(InsufficientData);
    }
    var ok := CheckPositive(volumes);
    if !ok {
      return Err(InvalidInput);
    }
    var out := new real[|volumes| - window + 1];
    var sum := 0.0;
    for i := 0 to |volumes|
      invariant sum == RangeSum(volumes, if i < window then 0 else i - window, i)
      invariant forall k :: 0 <= k < i - window + 1 ==> out[k] == Mean(volumes, k, window)
    {
      sum := sum + volumes[i];
      if i >= window {
        RangeSumSplit(volumes, i - window, i - window + 1, i + 1);
        sum := sum - volumes[i - window];
      }
      if i >= window - 1 {
        out[i - window + 1] := sum / (window as real);
      }
    }
    assert out[..] == Means(volumes, window);
    return Ok(out[..]);
  }

  function Smoothed(x: seq<real>, w: nat, a: real): (s: seq<real>)
    requires 0 < w <= |x|
    ensures |s| == |x| - w + 1 && forall i :: 0 <= i < |s| ==> s[i] == Smooth(x, w, a, i)
  {
    seq(|x| - w + 1, i requires 0 <= i < |x| - w + 1 => Smooth(x, w, a, i))
  }

  function Alpha(w: nat): real {
    2.0 / ((w + 1) as real)
  }

  function EmaSpec(prices: seq<real>, window: int): Outcome {
    match Rejection(prices, window, window)
    case Some(e) => Err(e)
    case None => Ok(Smoothed(prices, window, Alpha(window)))
  }

  method EMA(prices: seq<real>, window: int) returns (r: Outcome)
    ensures r == EmaSpec(prices, window)
  {
    hide Smooth, Mean, Blend, Alpha;
    var sma := SMA(prices, window);
    if sma.Err? {
      return sma;
    }
    var out := new real[|sma.value|];
    out[0] := sma.value[0];
    var alpha := Alpha(window);
    SmoothStart(prices, window, alpha);
    for i := 1 to |sma.value|
      invariant forall k :: 0 <= k < i ==> out[k] == Smooth(prices, window, alpha, k)
    {
      SmoothStep(prices, window, alpha, i - 1);
      out[i] := Blend(prices[i + window - 1], out[i - 1], alpha);
    }
    assert out[..] == Smoothed(prices, window, Alpha(window));
    return Ok(out[..]);
  }

  // ---------- Relative Strength Index ----------

  function Gains(prices: seq<real>): (g: seq<real>)
    requires |prices| >= 1
    ensures |g| == |prices| - 1
    ensures forall i :: 0 <= i < |g| ==> g[i] == Rise(prices[i], prices[i + 1]) && g[i] >= 0.0
  {
    seq(|prices| - 1, i requires 0 <= i < |prices| - 1 => Rise(prices[i], prices[i + 1]))
  }

  function Losses(prices: seq<real>): (g: seq<real>)
    requires |prices| >= 1
    ensures |g| == |prices| - 1
    ensures forall i :: 0 <= i < |g| ==> g[i] == Rise(prices[i + 1], prices[i]) && g[i] >= 0.0
  {
    seq(|prices| - 1, i requires 0 <= i < |prices| - 1 => Rise(prices[i + 1], prices[i]))
  }

  /** How far the second value is above the first one, and 0 when it is not. */
  function Rise(from: real, to: real): (r: real)
    ensures r >= 0.0
  {
    if to > from then to - from else 0.0
  }

  /** rsiValue of the source. */
  function RsiValue(avgGain: real, avgLoss: real): (r: real)
    requires avgGain >= 0.0 && avgLoss >= 0.0
  {
    if avgLoss == 0.0 then
      if avgGain == 0.0 then 50.0 else 100.0
    else
      assert avgGain / avgLoss >= 0.0 by { DivNonneg(avgGain, avgLoss); }
      100.0 - 100.0 / (1.0 + avgGain / avgLoss)
  }

  /** The share of gains in all movement, in percent; the neutral 50 when nothing moved. */
  function GainShare(gain: real, loss: real): real
    requires gain >= 0.0 && loss >= 0.0
  {
    if gain + loss == 0.0 then 50.0 else 100.0 * gain / (gain + loss)
  }

  lemma RsiValueIsGainShare(gain: real, loss: real)
    requires gain >= 0.0 && loss >= 0.0
    ensures RsiValue(gain, loss) == GainShare(gain, loss)
    ensures gain + loss == 0.0 ==> RsiValue(gain, loss) == 50.0
    ensures RsiValue(gain, loss) * (gain + loss) == 100.0 * gain
  {
    if loss > 0.0 {
      DivNonneg(gain, loss);
      var q, t := gain / loss, gain + loss;
      assert q * loss == gain;
      assert (1.0 + q) * loss == t;
      var u := 100.0 / (1.0 + q);
      assert u * (1.0 + q) == 100.0;
      assert u * t == 100.0 * loss by {
        assert u * t == u * ((1.0 + q) * loss);
        assert u * ((1.0 + q) * loss) == (u * (1.0 + q)) * loss;
      }
      assert (100.0 - u) * t == 100.0 * gain;
      DivUnique(100.0 - u, t, 100.0 * gain);
    } else if gain > 0.0 {
      assert 100.0 * gain / gain == 100.0;
    }
  }

  /** Wilder's average of x after i smoothing steps, in closed form. */
  function Wilder(x: seq<real>, period: nat, i: nat): (avg: real)
    requires 0 < period && period + i <= |x|
    ensures (forall k :: 0 <= k < |x| ==> x[k] >= 0.0) ==> avg >= 0.0
  {
    assert (forall k :: 0 <= k < |x| ==> x[k] >= 0.0) ==> Smooth(x, period, 1.0 / (period as real), i) >= 0.0 by {
      if forall k :: 0 <= k < |x| ==> x[k] >= 0.0 {
        SmoothBounded(x, period, 1.0 / (period as real), i, 0.0, RangeMax(x, 0, period + i));
      }
    }
    Smooth(x, period, 1.0 / (period as real), i)
  }

  lemma WilderStart(x: seq<real>, period: nat)
    requires 0 < period <= |x|
    ensures Wilder(x, period, 0) == Mean(x, 0, period)
  {
    SmoothStart(x, period, 1.0 / (period as real));
  }

  /** The Wilder averages of the gains and of the losses, as a reading. */
  function RsiAt(prices: seq<real>, period: nat, i: nat): real
    requires 0 < period && period + i < |prices|
  {
    GainShare(Wilder(Gains(prices), period, i), Wilder(Losses(prices), period, i))
  }

  function Rsis(prices: seq<real>, period: nat): (s: seq<real>)
    requires 0 < period < |prices|
    ensures |s| == |prices| - period && forall i :: 0 <= i < |s| ==> s[i] == RsiAt(prices, period, i)
  {
    seq(|prices| - period, i requires 0 <= i < |prices| - period => RsiAt(prices, period, i))
  }

  function RsiSpec(prices: seq<real>, period: int): Outcome {
    match Rejection(prices, period, period + 1)
    case Some(e) => Err(e)
    case None => Ok(Rsis(prices, period))
  }

  lemma WilderStep(avg: real, cur: real, n: real)
    requires n > 0.0
    ensures (avg * (n - 1.0) + cur) / n == cur * (1.0 / n) + avg * (1.0 - 1.0 / n)
  {
    assert avg * (n - 1.0) / n == avg * (1.0 - 1.0 / n) by {
      assert (n - 1.0) / n == 1.0 - 1.0 / n;
      assert avg * (n - 1.0) / n == avg * ((n - 1.0) / n);
    }
    assert cur / n == cur * (1.0 / n);
  }

  /** The smoothing step of the source. */
  function NextAverage(avg: real, cur: real, period: nat): (next: real)
    requires period > 0
    ensures period as real * next == (period as real - 1.0) * avg + cur
  {
    assert (period - 1) as real == period as real - 1.0;
    (avg * ((period - 1) as real) + cur) / (period as real)
  }

  lemma WilderRefines(x: seq<real>, period: nat, i: nat)
    requires 0 < period && period + i < |x|
    ensures Wilder(x, period, i + 1) == NextAverage(Wilder(x, period, i), x[period + i], period)
  {
    var n := period as real;
    assert (period - 1) as real == n - 1.0;
    WilderStep(Wilder(x, period, i), x[period + i], n);
    SmoothStep(x, period, 1.0 / n, i);
  }

  /** s holds the successive averages of x: a seed, then one smoothing step per element. */
  ghost predicate Averages(s: seq<real>, x: seq<real>, period: nat) {
    && 0 < period <= |x| && |s| == |x| - period + 1
    && (forall i :: 0 <= i < |s| ==> s[i] >= 0.0)
    && (forall i :: 0 <= i < |s| - 1 ==> s[i + 1] == NextAverage(s[i], x[period + i], period))
  }

  ghost function WilderSeries(x: seq<real>, period: nat): (s: seq<real>)
    requires 0 < period <= |x|
    requires forall k :: 0 <= k < |x| ==> x[k] >= 0.0
    ensures Averages(s, x, period)
    ensures forall i :: 0 <= i < |s| ==> s[i] == Wilder(x, period, i)
  {
    var s := seq(|x| - period + 1, i requires 0 <= i < |x| - period + 1 => Wilder(x, period, i));
    assert forall i :: 0 <= i < |s| - 1 ==> s[i + 1] == NextAverage(s[i], x[period + i], period) by {
      forall i | 0 <= i < |s| - 1
        ensures s[i + 1] == NextAverage(s[i], x[period + i], period)
      {
        WilderRefines(x, period, i);
      }
    }
    s
  }

  method Deltas(prices: seq<real>) returns (deltas: array<real>)
    requires |prices| >= 1
    ensures deltas.Length == |prices| - 1
    ensures forall k :: 0 <= k < |prices| - 1 ==> deltas[k] == prices[k + 1] - prices[k]
    ensures forall k :: 0 <= k < |prices| - 1 ==> Gains(prices)[k] == if deltas[k] > 0.0 then deltas[k] else 0.0
    ensures forall k :: 0 <= k < |prices| - 1 ==> Losses(prices)[k] == if deltas[k] > 0.0 then 0.0 else -deltas[k]
  {
    deltas := new real[|prices| - 1];
    for i := 1 to |prices|
      invariant forall k :: 0 <= k < i - 1 ==> deltas[k] == prices[k + 1] - prices[k]
    {
      deltas[i - 1] := prices[i] - prices[i - 1];
    }
  }

  /** The simple means of the first `period` gains and losses. */
  method SeedAverages(deltas: array<real>, period: nat, ghost gains: seq<real>, ghost losses: seq<real>)
    returns (avgGain: real, avgLoss: real)
    requires 0 < period <= deltas.Length == |gains| == |losses|
    requires forall k :: 0 <= k < |gains| ==> gains[k] == if deltas[k] > 0.0 then deltas[k] else 0.0
    requires forall k :: 0 <= k < |gains| ==> losses[k] == if deltas[k] > 0.0 then 0.0 else -deltas[k]
    ensures avgGain == Mean(gains, 0, period) && avgLoss == Mean(losses, 0, period)
  {
    avgGain, avgLoss := 0.0, 0.0;
    for i := 0 to period
      invariant avgGain == RangeSum(gains, 0, i) && avgLoss == RangeSum(losses, 0, i)
    {
      if deltas[i] > 0.0 {
        avgGain := avgGain + deltas[i];
      } else {
        avgLoss := avgLoss - deltas[i];
      }
    }
    avgGain := avgGain / (period as real);
    avgLoss := avgLoss / (period as real);
  }

  /** The smoothing loop: one reading for the seed and one for each later movement. */
  method SmoothingLoop(deltas: array<real>, period: nat, seedGain: real, seedLoss: real,
                       ghost gains: seq<real>, ghost losses: seq<real>, ghost gs: seq<real>, ghost ls: seq<real>)
    returns (out: seq<real>)
    requires 0 < period <= deltas.Length == |gains| == |losses|
    requires forall k :: 0 <= k < |gains| ==> gains[k] == if deltas[k] > 0.0 then deltas[k] else 0.0
    requires forall k :: 0 <= k < |gains| ==> losses[k] == if deltas[k] > 0.0 then 0.0 else -deltas[k]
    requires Averages(gs, gains, period) && Averages(ls, losses, period)
    requires gs[0] == seedGain && ls[0] == seedLoss
    ensures |out| == |gs| && forall i :: 0 <= i < |out| ==> out[i] == RsiValue(gs[i], ls[i])
  {
    hide RsiValue, NextAverage;
    var avgGain, avgLoss := seedGain, seedLoss;
    out := [RsiValue(avgGain, avgLoss)];
    for i := 0 to deltas.Length - period
      invariant avgGain == gs[i] && avgLoss == ls[i]
      invariant |out| == i + 1
      invariant forall k :: 0 <= k < |out| ==> out[k] == RsiValue(gs[k], ls[k])
    {
      var d := deltas[period + i];
      var g, l := 0.0, 0.0;
      if d > 0.0 {
        g := d;
      } else {
        l := -d;
      }
      avgGain := NextAverage(avgGain, g, period);
      avgLoss := NextAverage(avgLoss, l, period);
      assert avgGain == gs[i + 1] && avgLoss == ls[i + 1];
      out := out + [RsiValue(avgGain, avgLoss)];
    }
  }

  lemma ReadingsRefine(prices: seq<real>, period: nat, gs: seq<real>, ls: seq<real>, out: seq<real>)
    requires 0 < period < |prices|
    requires gs == WilderSeries(Gains(prices), period) && ls == WilderSeries(Losses(prices), period)
    requires |out| == |gs| && forall i :: 0 <= i < |out| ==> out[i] == RsiValue(gs[i], ls[i])
    ensures out == Rsis(prices, period)
  {
    forall i | 0 <= i < |out|
      ensures out[i] == RsiAt(prices, period, i)
    {
      RsiValueIsGainShare(gs[i], ls[i]);
    }
  }

  method RSI(prices: seq<real>, period: int) returns (r: Outcome)
    ensures r == RsiSpec(prices, period)
  {
    if period < 1 {
      return Err(InvalidInput);
    }
    if |prices| < period + 1 {
      return Err(InsufficientData);
    }
    var ok := CheckPositive(prices);
    if !ok {
      return Err(InvalidInput);
    }
    var deltas := Deltas(prices);
    ghost var gains, losses := Gains(prices), Losses(prices);
    ghost var gs, ls := WilderSeries(gains, period), WilderSeries(losses, period);
    var avgGain, avgLoss := SeedAverages(deltas, period, gains, losses);
    WilderStart(gains, period);
    WilderStart(losses, period);
    var out := SmoothingLoop(deltas, period, avgGain, avgLoss, gains, losses, gs, ls);
    ReadingsRefine(prices, period, gs, ls, out);
    return Ok(out);
  }

  // ---------- Volatility ----------

  function SquareSum(x: seq<real>, lo: nat, hi: nat): real
    requires lo <= hi <= |x|
    decreases hi
  {
    if lo == hi then 0.0 else SquareSum(x, lo, hi - 1) + x[hi - 1] * x[hi - 1]
  }

  /** The sum of the squared distances from m. */
  function DeviationSum(x: seq<real>, lo: nat, hi: nat, m: real): real
    requires lo <= hi <= |x|
    decreases hi
  {
    if lo == hi then 0.0 else DeviationSum(x, lo, hi - 1, m) + (x[hi - 1] - m) * (x[hi - 1] - m)
  }

  /** S2 - S*S/w, from the sum S and the sum of squares S2 of the w elements starting at lo. */
  function Scatter(x: seq<real>, lo: nat, w: nat): real
    requires 0 < w && lo + w <= |x|
  {
    SquareSum(x, lo, lo + w) - RangeSum(x, lo, lo + w) * RangeSum(x, lo, lo + w) / (w as real)
  }

  /** The textbook variance with divisor w - 1. */
  function SampleVariance(x: seq<real>, lo: nat, w: nat): real
    requires 2 <= w && lo + w <= |x|
  {
    Scatter(x, lo, w) / ((w - 1) as real)
  }

  lemma {:induction false} DeviationExpands(x: seq<real>, lo: nat, hi: nat, m: real)
    requires lo <= hi <= |x|
    ensures DeviationSum(x, lo, hi, m)
         == SquareSum(x, lo, hi) - 2.0 * m * RangeSum(x, lo, hi) + ((hi - lo) as real) * (m * m)
    decreases hi
  {
    if lo < hi {
      DeviationExpands(x, lo, hi - 1, m);
      var k, v, s := (hi - 1 - lo) as real, x[hi - 1], RangeSum(x, lo, hi - 1);
      assert (hi - lo) as real == k + 1.0;
      assert (k + 1.0) * (m * m) == k * (m * m) + m * m;
      assert 2.0 * m * (s + v) == 2.0 * m * s + 2.0 * m * v;
      assert (v - m) * (v - m) == v * v - 2.0 * m * v + m * m;
    }
  }

  /** The two passes of the source, whatever the window, add up to the scatter. */
  lemma TwoPassScatter(x: seq<real>, lo: nat, w: nat)
    requires 0 < w && lo + w <= |x|
    ensures DeviationSum(x, lo, lo + w, Mean(x, lo, w)) == Scatter(x, lo, w)
  {
    var m := Mean(x, lo, w);
    DeviationExpands(x, lo, lo + w, m);
    ScatterAlgebra(DeviationSum(x, lo, lo + w, m), SquareSum(x, lo, lo + w), RangeSum(x, lo, lo + w), w, m);
  }

  lemma ScatterAlgebra(d: real, q: real, s: real, w: nat, m: real)
    requires w > 0 && m == s / (w as real)
    requires d == q - 2.0 * m * s + (w as real) * (m * m)
    ensures d == q - s * s / (w as real)
  {
    var n := w as real;
    assert n * m == s;
    assert n * (m * m) == (n * m) * m;
    assert s * s / n == s * m;
    assert 2.0 * m * s == 2.0 * (s * m);
  }

  /** The two-pass computation of the source gives the textbook sample variance. */
  lemma TwoPassVariance(x: seq<real>, lo: nat, w: nat)
    requires 2 <= w && lo + w <= |x|
    ensures DeviationSum(x, lo, lo + w, Mean(x, lo, w)) / ((w - 1) as real) == SampleVariance(x, lo, w)
  {
    hide Scatter, Mean;
    TwoPassScatter(x, lo, w);
  }

  /** The result of a floating point division, as far as zero divisors are concerned. */
  datatype Quotient = Number(value: real) | NotANumber | Infinite(positive: bool)

  function Divide(num: real, den: real): Quotient {
    if den != 0.0 then Number(num / den)
    else if num == 0.0 then NotANumber
    else Infinite(num > 0.0)
  }

  /** A reading of the volatility series: the square root of a quotient, not a number if that is none. */
  datatype Reading = RootOf(radicand: Quotient)

  function ReadingAt(prices: seq<real>, window: nat, i: nat): Reading
    requires 0 < window && i + window < |prices| && AllPositive(prices)
  {
    RootOf(Divide(Scatter(Returns(prices), i, window), (window - 1) as real))
  }

  function Readings(prices: seq<real>, window: nat): (s: seq<Reading>)
    requires 0 < window < |prices| && AllPositive(prices)
    ensures |s| == |prices| - window && forall i :: 0 <= i < |s| ==> s[i] == ReadingAt(prices, window, i)
  {
    seq(|prices| - window, i requires 0 <= i < |prices| - window => ReadingAt(prices, window, i))
  }

  function VolatilitySeriesSpec(prices: seq<real>, window: int): Result<seq<Reading>, Error> {
    match Rejection(prices, window, window + 1)
    case Some(e) => Err(e)
    case None => Ok(Readings(prices, window))
  }

  /** The two passes over one window: the mean first, then the squared distances from it. */
  method SquaredDeviations(x: seq<real>, i: nat, window: nat) returns (sq: real)
    requires 0 < window && i + window <= |x|
    ensures sq == Scatter(x, i, window)
  {
    var mean := 0.0;
    for j := i to i + window
      invariant mean == RangeSum(x, i, j)
    {
      mean := mean + x[j];
    }
    mean := mean / (window as real);
    sq := 0.0;
    for j := i to i + window
      invariant sq == DeviationSum(x, i, j, mean)
    {
      var d := x[j] - mean;
      sq := sq + d * d;
    }
    TwoPassScatter(x, i, window);
  }

  method VolatilitySeries(prices: seq<real>, window: int) returns (r: Result<seq<Reading>, Error>)
    ensures r == VolatilitySeriesSpec(prices, window)
  {
    hide Scatter, Mean, Divide;
    if window < 1 {
      return Err(InvalidInput);
    }
    if |prices| < window + 1 {
      return Err(InsufficientData);
    }
    var ok := CheckPositive(prices);
    if !ok {
      return Err(InvalidInput);
    }
    var ret := DailyReturn(prices);
    // DailyReturn cannot fail here: the guards above are stricter than its own.
    var x := ret.value;
    var out := new Reading[|x| - window + 1](_ => RootOf(NotANumber));
    for i := 0 to out.Length
      invariant forall k :: 0 <= k < i ==> out[k] == ReadingAt(prices, window, k)
    {
      var sq := SquaredDeviations(x, i, window);
      out[i] := RootOf(Divide(sq, (window - 1) as real));
    }
    assert out[..] == Readings(prices, window);
    return Ok(out[..]);
  }

  function VolatilitySpec(prices: seq<real>, window: int): Result<Reading, Error> {
    match Rejection(prices, window, window + 1)
    case Some(e) => Err(e)
    case None => Ok(ReadingAt(prices, window, |prices| - window - 1))
  }

  method Volatility(prices: seq<real>, window: int) returns (r: Result<Reading, Error>)
    ensures r == VolatilitySpec(prices, window)
  {
    var series := VolatilitySeries(prices, window);
    if series.Err? {
      return Err(series.error);
    }
    return Ok(series.value[|series.value| - 1]);
  }
}
