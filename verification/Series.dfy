/**
 Finite sums, geometric weights and extremes of series of reals: the mathematics that the
 indicator loops are specified against. Nothing here mentions running accumulators.
 */
module Series {

  lemma MulNonneg(a: real, b: real)
    requires a >= 0.0 && b >= 0.0
    ensures a * b >= 0.0
  {
  }

  lemma DivNonneg(a: real, b: real)
    requires a >= 0.0 && b > 0.0
    ensures a / b >= 0.0
  {
  }

  lemma DivPositive(a: real, b: real)
    requires a > 0.0 && b > 0.0
    ensures a / b > 0.0
  {
  }

  lemma DivUnique(q: real, t: real, p: real)
    requires t != 0.0 && q * t == p
    ensures q == p / t
  {
  }

  lemma MulDistributes(c: real, u: real, v: real)
    ensures c * (u + v) == c * u + c * v
  {
  }

  /** x[lo] + ... + x[hi-1] */
  function RangeSum(x: seq<real>, lo: nat, hi: nat): real
    requires lo <= hi <= |x|
    decreases hi
  {
    if lo == hi then 0.0 else RangeSum(x, lo, hi - 1) + x[hi - 1]
  }

  lemma {:induction false} RangeSumSplit(x: seq<real>, lo: nat, mid: nat, hi: nat)
    requires lo <= mid <= hi <= |x|
    ensures RangeSum(x, lo, hi) == RangeSum(x, lo, mid) + RangeSum(x, mid, hi)
    decreases hi
  {
    if mid == hi {
    } else {
      RangeSumSplit(x, lo, mid, hi - 1);
    }
  }

  /** The arithmetic mean of the w elements starting at lo. */
  function Mean(x: seq<real>, lo: nat, w: nat): real
    requires 0 < w && lo + w <= |x|
  {
    RangeSum(x, lo, lo + w) / (w as real)
  }

  function RangeMin(x: seq<real>, lo: nat, hi: nat): (m: real)
    requires lo < hi <= |x|
    ensures forall i :: lo <= i < hi ==> m <= x[i]
    ensures exists i :: lo <= i < hi && m == x[i]
    decreases hi
  {
    if lo + 1 == hi then x[lo]
    else
      var m := RangeMin(x, lo, hi - 1);
      if x[hi - 1] < m then x[hi - 1] else m
  }

  function RangeMax(x: seq<real>, lo: nat, hi: nat): (m: real)
    requires lo < hi <= |x|
    ensures forall i :: lo <= i < hi ==> x[i] <= m
    ensures exists i :: lo <= i < hi && m == x[i]
    decreases hi
  {
    if lo + 1 == hi then x[lo]
    else
      var m := RangeMax(x, lo, hi - 1);
      if m < x[hi - 1] then x[hi - 1] else m
  }

  lemma {:induction false} RangeSumBounded(x: seq<real>, lo: nat, hi: nat, low: real, high: real)
    requires lo <= hi <= |x|
    requires forall i :: lo <= i < hi ==> low <= x[i] <= high
    ensures low * ((hi - lo) as real) <= RangeSum(x, lo, hi) <= high * ((hi - lo) as real)
    decreases hi
  {
    if lo < hi {
      RangeSumBounded(x, lo, hi - 1, low, high);
      var k := (hi - 1 - lo) as real;
      assert (hi - lo) as real == k + 1.0;
      MulDistributes(low, k, 1.0);
      MulDistributes(high, k, 1.0);
      assert low <= x[hi - 1] <= high;
      assert low * ((hi - lo) as real) == low * k + low;
      assert high * ((hi - lo) as real) == high * k + high;
    }
  }

  lemma MeanBounded(x: seq<real>, lo: nat, w: nat, low: real, high: real)
    requires 0 < w && lo + w <= |x|
    requires forall i :: lo <= i < lo + w ==> low <= x[i] <= high
    ensures low <= Mean(x, lo, w) <= high
  {
    RangeSumBounded(x, lo, lo + w, low, high);
    var n := w as real;
    DivBounds(RangeSum(x, lo, lo + w), n, low, high);
  }

  lemma DivBounds(s: real, n: real, low: real, high: real)
    requires n > 0.0 && low * n <= s <= high * n
    ensures low <= s / n <= high
  {
    var q := s / n;
    assert q * n == s;
    MulDistributes(n, q, -low);
    DivUnique(q - low, n, s - low * n);
    DivNonneg(s - low * n, n);
    MulDistributes(n, high, -q);
    DivUnique(high - q, n, high * n - s);
    DivNonneg(high * n - s, n);
  }

  function Image(v: real, c: real, d: real): real {
    c * v + d
  }

  /** Every element v is replaced by c*v + d. */
  function Affine(x: seq<real>, c: real, d: real): (y: seq<real>)
    ensures |y| == |x| && forall i :: 0 <= i < |x| ==> y[i] == Image(x[i], c, d)
  {
    seq(|x|, i requires 0 <= i < |x| => Image(x[i], c, d))
  }

  lemma {:induction false} RangeSumAffine(x: seq<real>, c: real, d: real, lo: nat, hi: nat)
    requires lo <= hi <= |x|
    ensures RangeSum(Affine(x, c, d), lo, hi) == c * RangeSum(x, lo, hi) + d * ((hi - lo) as real)
    decreases hi
  {
    if lo < hi {
      RangeSumAffine(x, c, d, lo, hi - 1);
      var k := (hi - 1 - lo) as real;
      assert (hi - lo) as real == k + 1.0;
      MulDistributes(d, k, 1.0);
      MulDistributes(c, RangeSum(x, lo, hi - 1), x[hi - 1]);
    }
  }

  lemma MeanAffine(x: seq<real>, c: real, d: real, lo: nat, w: nat)
    requires 0 < w && lo + w <= |x|
    ensures Mean(Affine(x, c, d), lo, w) == Image(Mean(x, lo, w), c, d)
  {
    RangeSumAffine(x, c, d, lo, lo + w);
    var s, n := RangeSum(x, lo, lo + w), w as real;
    assert s == (s / n) * n;
    assert c * s + d * n == (c * (s / n) + d) * n;
  }

  function Scaled(b: real, v: real): real {
    b * v
  }

  function Pow(b: real, k: nat): real {
    if k == 0 then 1.0 else Scaled(b, Pow(b, k - 1))
  }

  /** A sum s with the term a*p*v added, p being the weight that the age of v has left. */
  function AddTerm(s: real, a: real, p: real, v: real): real {
    s + a * p * v
  }

  /** a * ((1-a)^(i-1) x[w] + (1-a)^(i-2) x[w+1] + ... ), the first m of its terms. */
  function Weighted(x: seq<real>, w: nat, a: real, i: nat, m: nat): real
    requires m <= i && w + m <= |x|
    decreases m
  {
    if m == 0 then 0.0 else AddTerm(Weighted(x, w, a, i, m - 1), a, Pow(1.0 - a, i - m), x[w + m - 1])
  }

  /**
   The exponentially smoothed series in closed form: the mean of the first w elements with
   weight (1-a)^i, and each later element x[w+k-1], k = 1..i, with weight a*(1-a)^(i-k).
   The exponential moving average takes a = 2/(w+1); Wilder's smoothing takes a = 1/w.
   */
  function Smooth(x: seq<real>, w: nat, a: real, i: nat): real
    requires 0 < w && w + i <= |x|
  {
    Pow(1.0 - a, i) * Mean(x, 0, w) + Weighted(x, w, a, i, i)
  }

  /** One step later every weight has shrunk by the same factor. */
  lemma {:induction false} WeightedAges(x: seq<real>, w: nat, a: real, i: nat, m: nat)
    requires m <= i && w + m <= |x|
    ensures Weighted(x, w, a, i + 1, m) == Scaled(1.0 - a, Weighted(x, w, a, i, m))
    decreases m
  {
    if m == 0 {
      assert Scaled(1.0 - a, 0.0) == 0.0;
    } else {
      hide Scaled, AddTerm;
      WeightedAges(x, w, a, i, m - 1);
      TermAges(Weighted(x, w, a, i, m - 1), a, 1.0 - a, Pow(1.0 - a, i - m), x[w + m - 1]);
    }
  }

  lemma TermAges(s: real, a: real, b: real, p: real, v: real)
    ensures AddTerm(Scaled(b, s), a, Scaled(b, p), v) == Scaled(b, AddTerm(s, a, p, v))
  {
  }

  /** The convex combination of the recurrence. */
  function Blend(u: real, v: real, a: real): real {
    u * a + v * (1.0 - a)
  }

  /** The closed form obeys the one-step recurrence that the loops run. */
  lemma SmoothStep(x: seq<real>, w: nat, a: real, i: nat)
    requires 0 < w && w + i < |x|
    ensures Smooth(x, w, a, i + 1) == Blend(x[w + i], Smooth(x, w, a, i), a)
  {
    hide Mean, Scaled, AddTerm;
    WeightedAges(x, w, a, i, i);
    StepAlgebra(a, Pow(1.0 - a, i), Mean(x, 0, w), Weighted(x, w, a, i, i), x[w + i]);
  }

  lemma StepAlgebra(a: real, p: real, m: real, s: real, v: real)
    ensures Scaled(1.0 - a, p) * m + AddTerm(Scaled(1.0 - a, s), a, 1.0, v) == Blend(v, p * m + s, a)
  {
  }

  lemma SmoothStart(x: seq<real>, w: nat, a: real)
    requires 0 < w <= |x|
    ensures Smooth(x, w, a, 0) == Mean(x, 0, w)
  {
    assert Pow(1.0 - a, 0) == 1.0;
  }

  lemma {:induction false} SmoothBounded(x: seq<real>, w: nat, a: real, i: nat, low: real, high: real)
    requires 0 < w && w + i <= |x| && 0.0 <= a <= 1.0
    requires forall k :: 0 <= k < w + i ==> low <= x[k] <= high
    ensures low <= Smooth(x, w, a, i) <= high
    decreases i
  {
    if i == 0 {
      SmoothStart(x, w, a);
      MeanBounded(x, 0, w, low, high);
    } else {
      SmoothBounded(x, w, a, i - 1, low, high);
      SmoothStep(x, w, a, i - 1);
      ConvexBounds(x[w + i - 1], Smooth(x, w, a, i - 1), a, low, high);
    }
  }

  lemma ConvexBounds(u: real, v: real, a: real, low: real, high: real)
    requires 0.0 <= a <= 1.0 && low <= u <= high && low <= v <= high
    ensures low <= Blend(u, v, a) <= high
  {
    MulNonneg(u - low, a);
    MulNonneg(v - low, 1.0 - a);
    MulNonneg(high - u, a);
    MulNonneg(high - v, 1.0 - a);
    assert u * a + v * (1.0 - a) - low == (u - low) * a + (v - low) * (1.0 - a);
    assert high - (u * a + v * (1.0 - a)) == (high - u) * a + (high - v) * (1.0 - a);
  }

  /** Smoothing commutes with rescaling and shifting. */
  lemma {:induction false} SmoothAffine(x: seq<real>, w: nat, a: real, i: nat, c: real, d: real)
    requires 0 < w && w + i <= |x|
    ensures Smooth(Affine(x, c, d), w, a, i) == Image(Smooth(x, w, a, i), c, d)
    decreases i
  {
    hide Smooth, Mean, Image;
    var y := Affine(x, c, d);
    if i == 0 {
      SmoothStart(x, w, a);
      SmoothStart(y, w, a);
      MeanAffine(x, c, d, 0, w);
    } else {
      SmoothAffine(x, w, a, i - 1, c, d);
      SmoothAffineStep(x, w, a, i - 1, c, d);
    }
  }

  lemma SmoothAffineStep(x: seq<real>, w: nat, a: real, i: nat, c: real, d: real)
    requires 0 < w && w + i < |x|
    requires Smooth(Affine(x, c, d), w, a, i) == Image(Smooth(x, w, a, i), c, d)
    ensures Smooth(Affine(x, c, d), w, a, i + 1) == Image(Smooth(x, w, a, i + 1), c, d)
  {
    hide Smooth, Image, Blend;
    var y := Affine(x, c, d);
    SmoothStep(x, w, a, i);
    SmoothStep(y, w, a, i);
    AffineStep(x[w + i], Smooth(x, w, a, i), a, c, d);
  }

  /** A convex combination of affine images is the affine image of the combination. */
  lemma AffineStep(u: real, v: real, a: real, c: real, d: real)
    ensures Blend(Image(u, c, d), Image(v, c, d), a) == Image(Blend(u, v, a), c, d)
  {
  }
}
