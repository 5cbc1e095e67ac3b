/**
 * The two moving averages of calculate_ma, as pandas defines them, over exact reals:
 * `ewm(span = w, adjust = False).mean()` (Ema) and `rolling(window = w).mean()` (RollingMean).
 * Both are computed sample by sample: the column of a series is the column of the series
 * without its last sample, extended by one value.
 */
module MovingAverage {
  import opened Wrappers
  import opened Settings

  // ---------------------------------------------------------------------------
  // Sums, means, extremes

  function Sum(s: seq<real>): real
    decreases |s|
  {
    if |s| == 0 then 0.0 else Sum(s[..|s| - 1]) + s[|s| - 1]
  }

  /** The arithmetic mean, as pandas' rolling mean computes it over a full window. */
  function Mean(s: seq<real>): (m: real)
    requires |s| > 0
    ensures m * (|s| as real) == Sum(s)
  {
    Sum(s) / (|s| as real)
  }

  function Min(s: seq<real>): (m: real)
    requires |s| > 0
    ensures m in s
    ensures forall i :: 0 <= i < |s| ==> m <= s[i]
    decreases |s|
  {
    if |s| == 1 then s[0]
    else
      var m' := Min(s[..|s| - 1]);
      assert m' in s[..|s| - 1];
      if s[|s| - 1] < m' then s[|s| - 1] else m'
  }

  function Max(s: seq<real>): (m: real)
    requires |s| > 0
    ensures m in s
    ensures forall i :: 0 <= i < |s| ==> s[i] <= m
    decreases |s|
  {
    if |s| == 1 then s[0]
    else
      var m' := Max(s[..|s| - 1]);
      assert m' in s[..|s| - 1];
      if s[|s| - 1] > m' then s[|s| - 1] else m'
  }

  /** A sum of samples within [lo, hi] lies within [n * lo, n * hi]. */
  lemma {:induction false} SumWithin(s: seq<real>, lo: real, hi: real)
    requires forall j :: 0 <= j < |s| ==> lo <= s[j] <= hi
    ensures (|s| as real) * lo <= Sum(s) <= (|s| as real) * hi
    decreases |s|
  {
    if |s| > 0 {
      var n := |s|;
      SumWithin(s[..n - 1], lo, hi);
      assert Sum(s) == Sum(s[..n - 1]) + s[n - 1];
      assert (n as real) * lo == ((n - 1) as real) * lo + lo;
      assert (n as real) * hi == ((n - 1) as real) * hi + hi;
    }
  }

  /** A mean of samples within [lo, hi] lies within [lo, hi]. */
  lemma MeanWithin(s: seq<real>, lo: real, hi: real)
    requires |s| > 0
    requires forall j :: 0 <= j < |s| ==> lo <= s[j] <= hi
    ensures lo <= Mean(s) <= hi
  {
    SumWithin(s, lo, hi);
    var n := |s| as real;
    var m := Mean(s);
    assert m * n == Sum(s);
  }

  /** The mean lies between the smallest and largest sample it averages. */
  lemma MeanBetweenMinMax(s: seq<real>)
    requires |s| > 0
    ensures Min(s) <= Mean(s) <= Max(s)
  {
    MeanWithin(s, Min(s), Max(s));
  }

  // ---------------------------------------------------------------------------
  // Exponential moving average: ewm(span = w, adjust = False)

  /** The smoothing factor pandas derives from a span. */
  function Alpha(w: Window): (a: real)
    ensures 0.0 < a <= 1.0
    ensures a * (w as real + 1.0) == 2.0
  {
    2.0 / (w as real + 1.0)
  }

  /** One step of the recurrence: the previous average moved a fraction Alpha(w) towards x. */
  function EmaStep(prev: real, x: real, w: Window): (y: real)
    ensures prev <= x ==> prev <= y <= x
    ensures x <= prev ==> x <= y <= prev
    ensures w == 1 ==> y == x
  {
    ConvexWithin(prev, x, Alpha(w), if prev <= x then prev else x, if prev <= x then x else prev);
    (1.0 - Alpha(w)) * prev + Alpha(w) * x
  }

  /** The EMA column: one value per sample, seeded with the first sample. */
  function Ema(xs: seq<real>, w: Window): (ys: seq<real>)
    ensures |ys| == |xs|
    decreases |xs|
  {
    if |xs| == 0 then []
    else if |xs| == 1 then [xs[0]]
    else
      var prev := Ema(xs[..|xs| - 1], w);
      prev + [EmaStep(prev[|prev| - 1], xs[|xs| - 1], w)]
  }

  /** The EMA of a prefix is the prefix of the EMA: each value depends only on the samples so far. */
  lemma {:induction false} EmaPrefix(xs: seq<real>, w: Window, k: nat)
    requires k <= |xs|
    ensures Ema(xs[..k], w) == Ema(xs, w)[..k]
    decreases |xs|
  {
    if k < |xs| {
      var n := |xs|;
      EmaPrefix(xs[..n - 1], w, k);
      assert xs[..n - 1][..k] == xs[..k];
      if n > 1 {
        assert Ema(xs, w)[..n - 1] == Ema(xs[..n - 1], w);
      }
    } else {
      assert xs[..k] == xs;
    }
  }

  /** pandas' adjust=False definition: y[0] = x[0] and y[i] = (1 - a) y[i-1] + a x[i]. */
  lemma EmaRecurrence(xs: seq<real>, w: Window, i: nat)
    requires i < |xs|
    ensures i == 0 ==> Ema(xs, w)[i] == xs[0]
    ensures i > 0 ==> Ema(xs, w)[i] == EmaStep(Ema(xs, w)[i - 1], xs[i], w)
  {
    var p := xs[..i + 1];
    EmaPrefix(xs, w, i + 1);
    var e := Ema(p, w);
    assert e[i] == Ema(xs, w)[i];
    if i > 0 {
      assert e[i - 1] == Ema(xs, w)[i - 1];
      var q := Ema(p[..i], w);
      assert e == q + [EmaStep(q[i - 1], p[i], w)];
      assert e[i] == EmaStep(e[i - 1], xs[i], w);
    }
  }

  lemma ConvexWithin(prev: real, x: real, a: real, lo: real, hi: real)
    requires 0.0 <= a <= 1.0
    requires lo <= prev <= hi && lo <= x <= hi
    ensures lo <= (1.0 - a) * prev + a * x <= hi
  {
    ProductNonnegative(1.0 - a, prev - lo);
    ProductNonnegative(a, x - lo);
    ProductNonnegative(1.0 - a, hi - prev);
    ProductNonnegative(a, hi - x);
  }

  lemma ProductNonnegative(a: real, b: real)
    requires a >= 0.0 && b >= 0.0
    ensures a * b >= 0.0
  {
  }

  /** Every EMA value of samples within [lo, hi] lies within [lo, hi]. */
  lemma {:induction false} EmaWithin(xs: seq<real>, w: Window, lo: real, hi: real)
    requires forall j :: 0 <= j < |xs| ==> lo <= xs[j] <= hi
    ensures forall i :: 0 <= i < |xs| ==> lo <= Ema(xs, w)[i] <= hi
    decreases |xs|
  {
    var n := |xs|;
    if n > 1 {
      var prev := Ema(xs[..n - 1], w);
      EmaWithin(xs[..n - 1], w, lo, hi);
      ConvexWithin(prev[n - 2], xs[n - 1], Alpha(w), lo, hi);
      assert Ema(xs, w) == prev + [EmaStep(prev[n - 2], xs[n - 1], w)];
    }
  }

  /** The EMA at index i lies between the least and greatest of the samples xs[0..i]. */
  lemma EmaBetweenMinMax(xs: seq<real>, w: Window, i: nat)
    requires i < |xs|
    ensures Min(xs[..i + 1]) <= Ema(xs, w)[i] <= Max(xs[..i + 1])
  {
    var p := xs[..i + 1];
    EmaWithin(p, w, Min(p), Max(p));
    EmaPrefix(xs, w, i + 1);
    assert Ema(p, w)[i] == Ema(xs, w)[i];
  }

  // ---------------------------------------------------------------------------
  // Simple moving average: rolling(window = w).mean()

  /** The rolling-mean column: NaN (None) until a full window of w samples exists. */
  function RollingMean(xs: seq<real>, w: Window): (ys: seq<Option<real>>)
    ensures |ys| == |xs|
    decreases |xs|
  {
    if |xs| == 0 then []
    else
      var n := |xs|;
      RollingMean(xs[..n - 1], w) + [if n < w then None else Some(Mean(xs[n - w..]))]
  }

  /** Index i of the rolling mean: undefined before index w - 1, else the mean of xs[i-w+1..i]. */
  lemma {:induction false} RollingMeanAt(xs: seq<real>, w: Window, i: nat)
    requires i < |xs|
    ensures i + 1 < w ==> RollingMean(xs, w)[i] == None
    ensures i + 1 >= w ==> RollingMean(xs, w)[i] == Some(Mean(xs[i + 1 - w..i + 1]))
    decreases |xs|
  {
    var n := |xs|;
    if i < n - 1 {
      RollingMeanAt(xs[..n - 1], w, i);
      assert RollingMean(xs, w)[i] == RollingMean(xs[..n - 1], w)[i];
      if i + 1 >= w {
        assert xs[..n - 1][i + 1 - w..i + 1] == xs[i + 1 - w..i + 1];
      }
    } else if i + 1 >= w {
      assert xs[n - w..] == xs[i + 1 - w..i + 1];
    }
  }

  /** Once defined, the rolling mean lies between the least and greatest sample of its window. */
  lemma RollingMeanBetweenMinMax(xs: seq<real>, w: Window, i: nat)
    requires i < |xs| && i + 1 >= w
    ensures RollingMean(xs, w)[i].Some?
    ensures Min(xs[i + 1 - w..i + 1]) <= RollingMean(xs, w)[i].value <= Max(xs[i + 1 - w..i + 1])
  {
    RollingMeanAt(xs, w, i);
    MeanBetweenMinMax(xs[i + 1 - w..i + 1]);
  }

  // ---------------------------------------------------------------------------
  // The column calculate_ma assigns, in either mode

  /** An all-defined column. */
  function Defined(ys: seq<real>): (zs: seq<Option<real>>)
    ensures |zs| == |ys|
    ensures forall i :: 0 <= i < |ys| ==> zs[i] == Some(ys[i])
  {
    seq(|ys|, i requires 0 <= i < |ys| => Some(ys[i]))
  }

  function Average(xs: seq<real>, w: Window, useEma: bool): (ys: seq<Option<real>>)
    ensures |ys| == |xs|
  {
    if useEma then Defined(Ema(xs, w)) else RollingMean(xs, w)
  }

  /** Where it is defined, either average of a constant series r is r. */
  lemma AverageOfConstant(xs: seq<real>, w: Window, useEma: bool, r: real)
    requires forall j :: 0 <= j < |xs| ==> xs[j] == r
    ensures forall i :: 0 <= i < |xs| ==> Average(xs, w, useEma)[i] in {None, Some(r)}
  {
    if useEma {
      EmaWithin(xs, w, r, r);
    } else {
      forall i | 0 <= i < |xs|
        ensures RollingMean(xs, w)[i] in {None, Some(r)}
      {
        RollingMeanAt(xs, w, i);
        if i + 1 >= w {
          MeanWithin(xs[i + 1 - w..i + 1], r, r);
        }
      }
    }
  }

  /** In EMA mode the column is defined everywhere; in SMA mode exactly from index w - 1 on. */
  lemma AverageDefined(xs: seq<real>, w: Window, useEma: bool, i: nat)
    requires i < |xs|
    ensures Average(xs, w, useEma)[i].Some? <==> useEma || i + 1 >= w
  {
    if !useEma {
      RollingMeanAt(xs, w, i);
    }
  }
}
