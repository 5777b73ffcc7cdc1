/** What the indicators mean, for every price series and every window. */
module TechnicalLaws {
  import opened Prelude
  import opened Series
  import opened Technical

  // ---------- Moving averages ----------

  /** Every SMA output lies between the extremes of the very window it is aligned with. */
  lemma SmaWithinWindow(prices: seq<real>, window: int, i: nat)
    requires SmaSpec(prices, window).Ok? && i < |SmaSpec(prices, window).value|
    ensures |SmaSpec(prices, window).value| == |prices| - window + 1
    ensures RangeMin(prices, i, i + window) <= SmaSpec(prices, window).value[i] <= RangeMax(prices, i, i + window)
  {
    MeanBounded(prices, i, window, RangeMin(prices, i, i + window), RangeMax(prices, i, i + window));
  }

  lemma AlphaInUnit(w: nat)
    requires w > 0
    ensures 0.0 < Alpha(w) <= 1.0 && (w == 1 ==> Alpha(w) == 1.0)
    ensures Alpha(w) * ((w + 1) as real) == 2.0
  {
  }

  /** Every EMA output lies between the extremes of all the prices consumed so far. */
  lemma EmaWithinHistory(prices: seq<real>, window: int, i: nat)
    requires EmaSpec(prices, window).Ok? && i < |EmaSpec(prices, window).value|
    ensures |EmaSpec(prices, window).value| == |prices| - window + 1
    ensures RangeMin(prices, 0, i + window) <= EmaSpec(prices, window).value[i] <= RangeMax(prices, 0, i + window)
  {
    AlphaInUnit(window);
    SmoothBounded(prices, window, Alpha(window), i,
                  RangeMin(prices, 0, i + window), RangeMax(prices, 0, i + window));
  }

  /** With a window of 1 the EMA is the price series itself. */
  lemma EmaOfWindowOne(prices: seq<real>)
    requires |prices| >= 1 && AllPositive(prices)
    ensures EmaSpec(prices, 1) == Ok(prices)
  {
    AlphaInUnit(1);
    forall i | 0 <= i < |prices|
      ensures Smooth(prices, 1, 1.0, i) == prices[i]
    {
      if i == 0 {
        SmoothStart(prices, 1, 1.0);
        assert RangeSum(prices, 0, 1) == RangeSum(prices, 0, 0) + prices[0];
      } else {
        SmoothStep(prices, 1, 1.0, i - 1);
      }
    }
    assert Smoothed(prices, 1, Alpha(1)) == prices;
  }

  ghost predicate Progression(prices: seq<real>, b: real, d: real) {
    forall j :: 0 <= j < |prices| ==> prices[j] == b + d * (j as real)
  }

  lemma {:induction false} ProgressionSum(prices: seq<real>, b: real, d: real, lo: nat, w: nat)
    requires Progression(prices, b, d) && lo + w <= |prices|
    ensures 2.0 * RangeSum(prices, lo, lo + w)
         == (w as real) * (2.0 * (b + d * (lo as real)) + d * (w as real - 1.0))
    decreases w
  {
    if w > 0 {
      ProgressionSum(prices, b, d, lo, w - 1);
      var k, p := (w - 1) as real, b + d * (lo as real);
      assert w as real == k + 1.0 && (lo + w - 1) as real == lo as real + k;
      assert prices[lo + w - 1] == p + d * k;
      assert k * (2.0 * p + d * (k - 1.0)) + 2.0 * (p + d * k) == (k + 1.0) * (2.0 * p + d * k);
    }
  }

  /** The mean of a window of a progression is its midpoint. */
  lemma ProgressionMean(prices: seq<real>, b: real, d: real, lo: nat, w: nat)
    requires Progression(prices, b, d) && 0 < w && lo + w <= |prices|
    ensures Mean(prices, lo, w) == b + d * (lo as real) + d * (w as real - 1.0) / 2.0
  {
    ProgressionSum(prices, b, d, lo, w);
    var s, n := RangeSum(prices, lo, lo + w), w as real;
    var q := b + d * (lo as real) + d * (n - 1.0) / 2.0;
    assert q * n == s;
    DivUnique(q, n, s);
  }

  lemma {:induction false} SmoothOfProgression(prices: seq<real>, b: real, d: real, w: nat, i: nat)
    requires Progression(prices, b, d) && 0 < w && i + w <= |prices|
    ensures Smooth(prices, w, Alpha(w), i) == Mean(prices, i, w)
    decreases i
  {
    hide Smooth, Mean, Blend, Alpha;
    if i == 0 {
      SmoothStart(prices, w, Alpha(w));
    } else {
      SmoothOfProgression(prices, b, d, w, i - 1);
      SmoothStep(prices, w, Alpha(w), i - 1);
      assert Smooth(prices, w, Alpha(w), i) == Blend(prices[w + i - 1], Mean(prices, i - 1, w), Alpha(w));
      MeanOfProgressionSteps(prices, b, d, w, i - 1);
    }
  }

  lemma MeanOfProgressionSteps(prices: seq<real>, b: real, d: real, w: nat, i: nat)
    requires Progression(prices, b, d) && 0 < w && i + w < |prices|
    ensures Mean(prices, i + 1, w) == Blend(prices[w + i], Mean(prices, i, w), Alpha(w))
  {
    hide Mean, Blend, Alpha;
    var t, n := i as real, w as real;
    var h := d * (n - 1.0) / 2.0;
    ProgressionMean(prices, b, d, i, w);
    ProgressionMean(prices, b, d, i + 1, w);
    assert (i + 1) as real == t + 1.0 && (w + i) as real == t + n;
    assert Mean(prices, i, w) == b + d * t + h;
    assert Mean(prices, i + 1, w) == b + d * (t + 1.0) + h;
    assert prices[w + i] == b + d * (t + n);
    AlphaOf(w);
    ProgressionAlgebra(b, d, t, n, Alpha(w));
  }

  lemma AlphaOf(w: nat)
    ensures Alpha(w) * (w as real + 1.0) == 2.0
  {
    assert (w + 1) as real == w as real + 1.0;
  }

  lemma ProgressionAlgebra(b: real, d: real, t: real, n: real, a: real)
    requires a * (n + 1.0) == 2.0
    ensures Blend(b + d * (t + n), b + d * t + d * (n - 1.0) / 2.0, a) == b + d * (t + 1.0) + d * (n - 1.0) / 2.0
  {
    var h := d * (n - 1.0) / 2.0;
    assert d * (t + n) == d * t + d * n;
    assert (b + (d * t + d * n)) * a + (b + d * t + h) * (1.0 - a) == b + d * t + h + (d * n - h) * a;
    assert d * n - h == d * (n + 1.0) / 2.0;
    assert (d * (n + 1.0) / 2.0) * a == d * (a * (n + 1.0)) / 2.0;
  }

  /** On every arithmetic price progression the EMA and the SMA are the same series. */
  lemma EmaMeetsSma(prices: seq<real>, window: int, b: real, d: real)
    requires Progression(prices, b, d)
    ensures EmaSpec(prices, window) == SmaSpec(prices, window)
  {
    if SmaSpec(prices, window).Ok? {
      forall i | 0 <= i < |prices| - window + 1
        ensures Smooth(prices, window, Alpha(window), i) == Mean(prices, i, window)
      {
        SmoothOfProgression(prices, b, d, window, i);
      }
      assert Smoothed(prices, window, Alpha(window)) == Means(prices, window);
    }
  }

  // ---------- Relative Strength Index ----------

  lemma GainShareInRange(g: real, l: real)
    requires g >= 0.0 && l >= 0.0
    ensures 0.0 <= GainShare(g, l) <= 100.0
  {
    if g + l > 0.0 {
      DivBounds(100.0 * g, g + l, 0.0, 100.0);
    }
  }

  lemma RsiWithinRange(prices: seq<real>, period: int, i: nat)
    requires RsiSpec(prices, period).Ok? && i < |RsiSpec(prices, period).value|
    ensures |RsiSpec(prices, period).value| == |prices| - period
    ensures 0.0 <= RsiSpec(prices, period).value[i] <= 100.0
  {
    hide Wilder, GainShare;
    GainShareInRange(Wilder(Gains(prices), period, i), Wilder(Losses(prices), period, i));
  }

  lemma GainShareScales(g: real, l: real, k: real, g': real, l': real)
    requires g >= 0.0 && l >= 0.0 && k > 0.0 && g' == k * g && l' == k * l
    ensures g' >= 0.0 && l' >= 0.0 && GainShare(g', l') == GainShare(g, l)
  {
    MulNonneg(k, g);
    MulNonneg(k, l);
    MulDistributes(k, g, l);
    if g + l > 0.0 {
      var q, t := 100.0 * g / (g + l), g + l;
      assert q * t == 100.0 * g;
      assert q * (k * t) == k * (q * t);
      assert k * t > 0.0;
      DivUnique(q, g' + l', 100.0 * g');
    }
  }

  lemma GainShareMirrors(g: real, l: real)
    requires g >= 0.0 && l >= 0.0
    ensures GainShare(l, g) == 100.0 - GainShare(g, l)
  {
    if g + l > 0.0 {
      var t := g + l;
      var q := 100.0 * g / t;
      assert (100.0 - q) * t == 100.0 * l by {
        assert q * t == 100.0 * g;
        assert (100.0 - q) * t == 100.0 * t - q * t;
      }
      DivUnique(100.0 - q, t, 100.0 * l);
    }
  }

  /** up and down are the two movements between x and y; up' and down' those between their images. */
  lemma RiseScales(x: real, y: real, c: real, d: real, x': real, y': real,
                   up: real, down: real, up': real, down': real)
    requires x' == c * x + d && y' == c * y + d
    requires up == Rise(x, y) && down == Rise(y, x) && up' == Rise(x', y') && down' == Rise(y', x')
    ensures c > 0.0 ==> up' == c * up && down' == c * down
    ensures c < 0.0 ==> up' == -c * down && down' == -c * up
  {
    var move := y - x;
    assert y' - x' == c * move;
    if c > 0.0 {
      MulSign(c, move);
      MulSign(c, -move);
    } else if c < 0.0 {
      MulSign(-c, move);
      MulSign(-c, -move);
    }
  }

  lemma MulSign(k: real, v: real)
    requires k > 0.0
    ensures k * v > 0.0 <==> v > 0.0
  {
    if v <= 0.0 {
      MulNonneg(k, -v);
    }
  }

  /** A positive scaling scales gains and losses; a reflection also trades them. */
  lemma MovementsScale(prices: seq<real>, y: seq<real>, c: real, d: real, i: nat)
    requires i + 1 < |prices| == |y| && c != 0.0
    requires y[i] == c * prices[i] + d && y[i + 1] == c * prices[i + 1] + d
    ensures c > 0.0 ==> Gains(y)[i] == c * Gains(prices)[i] && Losses(y)[i] == c * Losses(prices)[i]
    ensures c < 0.0 ==> Gains(y)[i] == -c * Losses(prices)[i] && Losses(y)[i] == -c * Gains(prices)[i]
  {
    hide Rise, Gains, Losses;
    var up, down, up', down' := Gains(prices)[i], Losses(prices)[i], Gains(y)[i], Losses(y)[i];
    RiseScales(prices[i], prices[i + 1], c, d, y[i], y[i + 1], up, down, up', down');
  }

  lemma WilderScales(x: seq<real>, y: seq<real>, period: nat, i: nat, k: real)
    requires 0 < period && period + i <= |x| == |y|
    requires forall j :: 0 <= j < |x| ==> y[j] == k * x[j]
    ensures Wilder(y, period, i) == k * Wilder(x, period, i)
  {
    hide Smooth;
    assert y == Affine(x, k, 0.0);
    SmoothAffine(x, period, 1.0 / (period as real), i, k, 0.0);
  }

  lemma RsiAtScales(prices: seq<real>, period: nat, i: nat, c: real, d: real)
    requires 0 < period && period + i < |prices| && c > 0.0
    ensures RsiAt(Affine(prices, c, d), period, i) == RsiAt(prices, period, i)
  {
    hide Wilder, GainShare, Gains, Losses, Affine;
    var y := Affine(prices, c, d);
    forall j | 0 <= j < |prices| - 1
      ensures Gains(y)[j] == c * Gains(prices)[j] && Losses(y)[j] == c * Losses(prices)[j]
    {
      MovementsScale(prices, y, c, d, j);
    }
    WilderScales(Gains(prices), Gains(y), period, i, c);
    WilderScales(Losses(prices), Losses(y), period, i, c);
    var g, l := Wilder(Gains(prices), period, i), Wilder(Losses(prices), period, i);
    GainShareScales(g, l, c, Wilder(Gains(y), period, i), Wilder(Losses(y), period, i));
  }

  lemma RsiAtReflects(prices: seq<real>, period: nat, i: nat, c: real, d: real)
    requires 0 < period && period + i < |prices| && c < 0.0
    ensures RsiAt(Affine(prices, c, d), period, i) == 100.0 - RsiAt(prices, period, i)
  {
    hide Wilder, GainShare, Gains, Losses, Affine;
    var y := Affine(prices, c, d);
    forall j | 0 <= j < |prices| - 1
      ensures Gains(y)[j] == -c * Losses(prices)[j] && Losses(y)[j] == -c * Gains(prices)[j]
    {
      MovementsScale(prices, y, c, d, j);
    }
    WilderScales(Gains(prices), Losses(y), period, i, -c);
    WilderScales(Losses(prices), Gains(y), period, i, -c);
    var g, l := Wilder(Gains(prices), period, i), Wilder(Losses(prices), period, i);
    GainShareScales(l, g, -c, Wilder(Gains(y), period, i), Wilder(Losses(y), period, i));
    GainShareMirrors(g, l);
  }

  /**
   Rescaling prices by c > 0 and shifting them by d leaves every reading alone; reflecting them
   (c < 0, in particular p -> C - p) turns every reading r into 100 - r. Flat (50) and loss-free
   (100) stretches are included, and so are the error outcomes.
   */
  lemma RsiTransforms(prices: seq<real>, period: int, c: real, d: real)
    requires AllPositive(prices) && AllPositive(Affine(prices, c, d)) && c != 0.0
    ensures c > 0.0 ==> RsiSpec(Affine(prices, c, d), period) == RsiSpec(prices, period)
    ensures c < 0.0 ==>
      match RsiSpec(prices, period)
      case Err(e) => RsiSpec(Affine(prices, c, d), period) == Err(e)
      case Ok(r) => RsiSpec(Affine(prices, c, d), period) == Ok(Affine(r, -1.0, 100.0))
  {
    hide RsiAt;
    if RsiSpec(prices, period).Ok? {
      var y := Affine(prices, c, d);
      forall i | 0 <= i < |prices| - period
        ensures c > 0.0 ==> Rsis(y, period)[i] == Rsis(prices, period)[i]
        ensures c < 0.0 ==> Rsis(y, period)[i] == 100.0 - Rsis(prices, period)[i]
      {
        if c > 0.0 {
          RsiAtScales(prices, period, i, c, d);
        } else {
          RsiAtReflects(prices, period, i, c, d);
        }
      }
      if c > 0.0 {
        assert Rsis(y, period) == Rsis(prices, period);
      } else {
        assert Rsis(y, period) == Affine(Rsis(prices, period), -1.0, 100.0);
      }
    }
  }

  // ---------- Returns and volatility ----------

  /** The product of 1 + return over positions lo..hi-1. */
  function Growth(r: seq<real>, lo: nat, hi: nat): real
    requires lo <= hi <= |r|
    decreases hi
  {
    if lo == hi then 1.0 else Growth(r, lo, hi - 1) * (1.0 + r[hi - 1])
  }

  /** Returns compound to the ratio of the last price to the first one. */
  lemma {:induction false} ReturnsTelescope(prices: seq<real>, lo: nat, hi: nat)
    requires AllPositive(prices) && lo <= hi < |prices|
    ensures Growth(Returns(prices), lo, hi) == prices[hi] / prices[lo]
    decreases hi
  {
    hide Returns;
    if lo < hi {
      ReturnsTelescope(prices, lo, hi - 1);
      Compound(prices[lo], prices[hi - 1], prices[hi]);
    } else {
      assert prices[lo] / prices[lo] == 1.0;
    }
  }

  lemma Compound(first: real, before: real, last: real)
    requires first != 0.0 && before != 0.0
    ensures before / first * (1.0 + (last / before - 1.0)) == last / first
  {
    var q, r := before / first, last / before;
    assert q * first == before && r * before == last;
    assert (q * r) * first == (q * first) * r;
    DivUnique(q * r, first, last);
  }

  lemma DailyReturnsTelescope(prices: seq<real>, lo: nat, hi: nat)
    requires DailyReturnSpec(prices).Ok? && lo <= hi < |prices|
    ensures Growth(DailyReturnSpec(prices).value, lo, hi) == prices[hi] / prices[lo]
  {
    hide Growth, Returns;
    ReturnsTelescope(prices, lo, hi);
  }

  lemma {:induction false} DeviationsVanish(x: seq<real>, lo: nat, hi: nat, m: real)
    requires lo <= hi <= |x|
    ensures DeviationSum(x, lo, hi, m) >= 0.0
    ensures DeviationSum(x, lo, hi, m) == 0.0 <==> forall k :: lo <= k < hi ==> x[k] == m
    decreases hi
  {
    if lo < hi {
      DeviationsVanish(x, lo, hi - 1, m);
      SquareVanishes(x[hi - 1] - m, DeviationSum(x, lo, hi, m) - DeviationSum(x, lo, hi - 1, m));
    }
  }

  lemma MulPositive(a: real, b: real, p: real)
    requires a > 0.0 && b > 0.0 && p == a * b
    ensures p > 0.0
  {
  }

  lemma SquareVanishes(v: real, sq: real)
    requires sq == v * v
    ensures sq >= 0.0
    ensures sq == 0.0 <==> v == 0.0
  {
    if v > 0.0 {
      MulPositive(v, v, sq);
    } else if v < 0.0 {
      MulPositive(-v, -v, sq);
    } else {
      assert sq == 0.0;
    }
  }

  /** The sample variance is never negative, and is zero exactly on windows of equal elements. */
  lemma VarianceVanishes(x: seq<real>, lo: nat, w: nat)
    requires 2 <= w && lo + w <= |x|
    ensures SampleVariance(x, lo, w) >= 0.0
    ensures SampleVariance(x, lo, w) == 0.0 <==> forall j, k :: lo <= j < lo + w && lo <= k < lo + w ==> x[j] == x[k]
  {
    var m, n := Mean(x, lo, w), (w - 1) as real;
    var dev := DeviationSum(x, lo, lo + w, m);
    TwoPassVariance(x, lo, w);
    DeviationsVanish(x, lo, lo + w, m);
    assert dev / n >= 0.0 && (dev / n == 0.0 <==> dev == 0.0) by {
      DivNonneg(dev, n);
      assert (dev / n) * n == dev;
    }
    if forall j, k :: lo <= j < lo + w && lo <= k < lo + w ==> x[j] == x[k] {
      assert forall k :: lo <= k < lo + w ==> x[lo] <= x[k] <= x[lo];
      MeanBounded(x, lo, w, x[lo], x[lo]);
    }
  }

  /** Any root the square root function may return inherits both facts. */
  lemma VolatilityVanishes(prices: seq<real>, window: int, root: real)
    requires window >= 2 && VolatilitySpec(prices, window).Ok?
    requires root >= 0.0 && VolatilitySpec(prices, window).value == RootOf(Number(root * root))
    ensures root == 0.0 <==>
            forall j, k :: |prices| - window - 1 <= j < |prices| - 1 && |prices| - window - 1 <= k < |prices| - 1 ==>
              Returns(prices)[j] == Returns(prices)[k]
  {
    hide Scatter;
    VarianceVanishes(Returns(prices), |prices| - window - 1, window);
    SquareVanishes(root, VolatilitySpec(prices, window).value.radicand.value);
  }

  lemma ReturnsScale(prices: seq<real>, c: real)
    requires |prices| >= 1 && AllPositive(prices) && c > 0.0
    ensures AllPositive(Affine(prices, c, 0.0)) && Returns(Affine(prices, c, 0.0)) == Returns(prices)
  {
    var y := Affine(prices, c, 0.0);
    forall i | 0 <= i < |prices|
      ensures y[i] > 0.0
    {
      MulSign(c, prices[i]);
    }
    forall i | 0 <= i < |prices| - 1
      ensures Returns(y)[i] == Returns(prices)[i]
    {
      var q := prices[i + 1] / prices[i];
      assert q * (c * prices[i]) == c * (q * prices[i]);
      DivUnique(q, c * prices[i], c * prices[i + 1]);
      assert y[i + 1] / y[i] == q;
    }
  }

  /** Quoting prices in another currency changes neither returns nor volatility. */
  lemma VolatilityScaleFree(prices: seq<real>, window: int, c: real)
    requires AllPositive(prices) && c > 0.0
    ensures DailyReturnSpec(Affine(prices, c, 0.0)) == DailyReturnSpec(prices)
    ensures VolatilitySeriesSpec(Affine(prices, c, 0.0), window) == VolatilitySeriesSpec(prices, window)
  {
    if |prices| >= 1 {
      ReturnsScale(prices, c);
      if 0 < window < |prices| {
        assert Readings(Affine(prices, c, 0.0), window) == Readings(prices, window);
      }
    }
  }

  /** A single return lies on its own mean. */
  lemma SingleReturnHasNoScatter(x: seq<real>, i: nat)
    requires i < |x|
    ensures DeviationSum(x, i, i + 1, Mean(x, i, 1)) == 0.0 && Scatter(x, i, 1) == 0.0
  {
    var m := Mean(x, i, 1);
    assert RangeSum(x, i, i + 1) == RangeSum(x, i, i) + x[i];
    assert m == x[i];
    assert DeviationSum(x, i, i + 1, m) == DeviationSum(x, i, i, m) + (x[i] - m) * (x[i] - m);
    TwoPassScatter(x, i, 1);
  }

  /**
   The design notes promise an error instead of a not-a-number or an infinity for every zero divisor
   (docs/DECISIONS.md:132-133). A window of one return divides 0 by 0, and no other call divides by 0.
   */
  lemma VolatilityIsNumberUnlessWindowOne(prices: seq<real>, window: int)
    requires VolatilitySpec(prices, window).Ok?
    ensures VolatilitySpec(prices, window).value.radicand.Number? <==> window != 1
    ensures window == 1 ==> VolatilitySpec(prices, window).value == RootOf(NotANumber)
    ensures window != 1 ==> VolatilitySpec(prices, window).value.radicand.value >= 0.0
  {
    hide Scatter;
    if window == 1 {
      SingleReturnHasNoScatter(Returns(prices), |prices| - 2);
    } else {
      VarianceVanishes(Returns(prices), |prices| - window - 1, window);
    }
  }

  lemma VolatilityWindowOneExample()
    ensures VolatilitySpec([10.0, 11.0], 1) == Ok(RootOf(NotANumber))
  {
    assert AllPositive([10.0, 11.0]);
    VolatilityIsNumberUnlessWindowOne([10.0, 11.0], 1);
  }
}
