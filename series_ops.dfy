/**
 * The pandas Series operations the indicators are built from, over columns
 * of extended reals: `diff`, comparison with a scalar, `where`, negation,
 * element-wise division, `rolling(window).mean()` and
 * `ewm(span, adjust=False).mean()`. Every operation maps a column to a new
 * column of the same length and never changes its input.
 */
module SeriesOps {
  import opened XReals

  // ---------------------------------------------------------------------
  // Sums over plain reals and over extended reals
  // ---------------------------------------------------------------------

  /** Sum of the entries `lo .. hi - 1` of a sequence of reals, folded from the left. */
  function RSum(s: seq<real>, lo: nat, hi: nat): (r: real)
    requires lo <= hi <= |s|
    decreases hi - lo
  {
    if hi == lo then 0.0 else RSum(s, lo, hi - 1) + s[hi - 1]
  }

  /** Sum of the entries `lo .. hi - 1` of a column with IEEE addition, folded like RSum. */
  function XSum(s: seq<XReal>, lo: nat, hi: nat): (r: XReal)
    requires lo <= hi <= |s|
    decreases hi - lo
  {
    if hi == lo then Fin(0.0) else Add(XSum(s, lo, hi - 1), s[hi - 1])
  }

  /** A column of reals as a column of finite entries. */
  function Lift(xs: seq<real>): (r: seq<XReal>)
    ensures |r| == |xs|
    ensures forall i :: 0 <= i < |xs| ==> r[i] == Fin(xs[i])
  {
    seq(|xs|, i requires 0 <= i < |xs| => Fin(xs[i]))
  }

  lemma {:induction false} XSumLift(xs: seq<real>, lo: nat, hi: nat)
    requires lo <= hi <= |xs|
    ensures XSum(Lift(xs), lo, hi) == Fin(RSum(xs, lo, hi))
    decreases hi - lo
  {
    if hi > lo {
      XSumLift(xs, lo, hi - 1);
    }
  }

  lemma {:induction false} RSumNonNegative(s: seq<real>, lo: nat, hi: nat)
    requires lo <= hi <= |s|
    requires forall k :: lo <= k < hi ==> s[k] >= 0.0
    ensures RSum(s, lo, hi) >= 0.0
    decreases hi - lo
  {
    if hi > lo {
      RSumNonNegative(s, lo, hi - 1);
    }
  }

  lemma {:induction false} RSumZero(s: seq<real>, lo: nat, hi: nat)
    requires lo <= hi <= |s|
    requires forall k :: lo <= k < hi ==> s[k] == 0.0
    ensures RSum(s, lo, hi) == 0.0
    decreases hi - lo
  {
    if hi > lo {
      RSumZero(s, lo, hi - 1);
    }
  }

  /** A sum of non-negative reals with one positive term is positive. */
  lemma {:induction false} RSumPositive(s: seq<real>, lo: nat, hi: nat, k: nat)
    requires lo <= k < hi <= |s|
    requires forall j :: lo <= j < hi ==> s[j] >= 0.0
    requires s[k] > 0.0
    ensures RSum(s, lo, hi) > 0.0
    decreases hi - lo
  {
    if k == hi - 1 {
      RSumNonNegative(s, lo, hi - 1);
    } else {
      RSumPositive(s, lo, hi - 1, k);
    }
  }

  /** Sums over a range depend only on the entries in that range. */
  lemma {:induction false} RSumSameEntries(s: seq<real>, t: seq<real>, lo: nat, hi: nat)
    requires lo <= hi <= |s| && hi <= |t|
    requires forall k :: lo <= k < hi ==> s[k] == t[k]
    ensures RSum(s, lo, hi) == RSum(t, lo, hi)
    decreases hi - lo
  {
    if hi > lo {
      RSumSameEntries(s, t, lo, hi - 1);
    }
  }

  // ---------------------------------------------------------------------
  // Element-wise operations
  // ---------------------------------------------------------------------

  /** `s.diff()`: the change from the previous row; NaN at the first row. */
  function Diff(p: seq<real>): (r: seq<XReal>)
    ensures |r| == |p|
    ensures forall i :: 0 < i < |p| ==> r[i] == Fin(p[i] - p[i - 1])
    ensures |p| > 0 ==> r[0] == NaN
  {
    seq(|p|, i requires 0 <= i < |p| => if i == 0 then NaN else Fin(p[i] - p[i - 1]))
  }

  /** The finite part of `Diff(p)`: the change into each row, with 0 for the first row. */
  function Changes(p: seq<real>): (r: seq<real>)
    ensures |r| == |p|
    ensures forall j :: 0 < j < |p| ==> Fin(r[j]) == Diff(p)[j]
  {
    seq(|p|, j requires 0 <= j < |p| => if j == 0 then 0.0 else Diff(p)[j].v)
  }

  /**
   * Summing the changes undoes `diff`: the changes into rows `lo .. hi - 1`
   * add up to the price move from row `lo - 1` to row `hi - 1`; in particular
   * `p[0]` plus the changes into rows `1 .. i` rebuilds `p[i]`.
   */
  lemma {:induction false} DiffTelescopes(p: seq<real>, lo: nat, hi: nat)
    requires 1 <= lo <= hi <= |p|
    ensures RSum(Changes(p), lo, hi) == p[hi - 1] - p[lo - 1]
    ensures lo == 1 ==> p[0] + RSum(Changes(p), 1, hi) == p[hi - 1]
    decreases hi - lo
  {
    if hi > lo {
      DiffTelescopes(p, lo, hi - 1);
    }
  }

  /** `s > c` as a boolean column. */
  function GreaterThan(s: seq<XReal>, c: real): (r: seq<bool>)
    ensures |r| == |s|
    ensures forall i :: 0 <= i < |s| ==> (r[i] <==> Greater(s[i], c))
  {
    seq(|s|, i requires 0 <= i < |s| => Greater(s[i], c))
  }

  /** `s < c` as a boolean column. */
  function LessThan(s: seq<XReal>, c: real): (r: seq<bool>)
    ensures |r| == |s|
    ensures forall i :: 0 <= i < |s| ==> (r[i] <==> Less(s[i], c))
  {
    seq(|s|, i requires 0 <= i < |s| => Less(s[i], c))
  }

  /** `s.where(keep, other)`: keep an entry where `keep` holds, else `other`. */
  function Where(s: seq<XReal>, keep: seq<bool>, other: XReal): (r: seq<XReal>)
    requires |keep| == |s|
    ensures |r| == |s|
    ensures forall i :: 0 <= i < |s| ==> r[i] == (if keep[i] then s[i] else other)
  {
    seq(|s|, i requires 0 <= i < |s| => if keep[i] then s[i] else other)
  }

  /** Unary `-s`. */
  function Negate(s: seq<XReal>): (r: seq<XReal>)
    ensures |r| == |s|
    ensures forall i :: 0 <= i < |s| ==> r[i] == Neg(s[i])
  {
    seq(|s|, i requires 0 <= i < |s| => Neg(s[i]))
  }

  /** `a / b`, row by row. */
  function Divide(a: seq<XReal>, b: seq<XReal>): (r: seq<XReal>)
    requires |a| == |b|
    ensures |r| == |a|
    ensures forall i :: 0 <= i < |a| ==> r[i] == Div(a[i], b[i])
  {
    seq(|a|, i requires 0 <= i < |a| => Div(a[i], b[i]))
  }

  /** `a - b` on columns of reals, row by row. */
  function Minus(a: seq<real>, b: seq<real>): (r: seq<real>)
    requires |a| == |b|
    ensures |r| == |a|
    ensures forall i :: 0 <= i < |a| ==> r[i] == a[i] - b[i]
  {
    seq(|a|, i requires 0 <= i < |a| => a[i] - b[i])
  }

  lemma MinusPrefix(a: seq<real>, b: seq<real>, k: nat)
    requires |a| == |b| && k <= |a|
    ensures Minus(a, b)[..k] == Minus(a[..k], b[..k])
  {
  }

  // ---------------------------------------------------------------------
  // Rolling mean
  // ---------------------------------------------------------------------

  /**
   * Entry `i` of `s.rolling(window).mean()`. With the default `min_periods`
   * (equal to the window) the entry is NaN until the window is full, and a
   * window of size 0 never holds an observation, so it is NaN throughout.
   * A full window holds the rows `i - window + 1 .. i`; NaN inside it makes
   * the mean NaN.
   */
  function WindowMean(s: seq<XReal>, i: nat, window: nat): (r: XReal)
    requires i < |s|
  {
    if window == 0 || i + 1 < window then NaN
    else Div(XSum(s, i + 1 - window, i + 1), Fin(window as real))
  }

  /** `s.rolling(window).mean()`. */
  function RollingMean(s: seq<XReal>, window: nat): (r: seq<XReal>)
    ensures |r| == |s|
    ensures forall i :: 0 <= i < |s| ==> r[i] == WindowMean(s, i, window)
  {
    seq(|s|, i requires 0 <= i < |s| => WindowMean(s, i, window))
  }

  /** On a column of finite entries the rolling mean is the plain window average. */
  lemma RollingMeanLift(xs: seq<real>, window: nat, i: nat)
    requires i < |xs|
    ensures window == 0 || i + 1 < window ==> RollingMean(Lift(xs), window)[i] == NaN
    ensures window >= 1 && i + 1 >= window ==>
              RollingMean(Lift(xs), window)[i] == Fin(RSum(xs, i + 1 - window, i + 1) / window as real)
  {
    if window >= 1 && i + 1 >= window {
      XSumLift(xs, i + 1 - window, i + 1);
    }
  }

  // ---------------------------------------------------------------------
  // Exponential moving average with adjust=False
  // ---------------------------------------------------------------------

  /** The smoothing factor pandas derives from a span: 2 / (span + 1). */
  function SpanAlpha(span: real): (alpha: real)
    requires span >= 1.0
    ensures 0.0 < alpha <= 1.0
  {
    2.0 / (span + 1.0)
  }

  /**
   * `x.ewm(alpha=alpha, adjust=False).mean()` on a column without NaN: the
   * first entry is x[0], and each later entry mixes the new observation with
   * the previous average.
   */
  function Ema(x: seq<real>, alpha: real): (r: seq<real>)
    ensures |r| == |x|
    decreases |x|
  {
    if |x| == 0 then []
    else if |x| == 1 then [x[0]]
    else
      var prev := Ema(x[..|x| - 1], alpha);
      prev + [alpha * x[|x| - 1] + (1.0 - alpha) * prev[|prev| - 1]]
  }

  /** The average of a prefix is the prefix of the average: it never looks ahead. */
  lemma {:induction false} EmaPrefix(x: seq<real>, alpha: real, k: nat)
    requires k <= |x|
    ensures Ema(x, alpha)[..k] == Ema(x[..k], alpha)
    decreases |x|
  {
    if k == |x| {
      assert x[..k] == x;
    } else if |x| >= 2 {
      var init := x[..|x| - 1];
      assert Ema(x, alpha)[..k] == Ema(init, alpha)[..k];
      EmaPrefix(init, alpha, k);
      assert init[..k] == x[..k];
    }
  }

  /** The adjust=False recurrence, stated for every row of the result. */
  lemma EmaRecurrence(x: seq<real>, alpha: real, i: nat)
    requires i < |x|
    ensures i == 0 ==> Ema(x, alpha)[0] == x[0]
    ensures i > 0 ==> Ema(x, alpha)[i] == alpha * x[i] + (1.0 - alpha) * Ema(x, alpha)[i - 1]
  {
    EmaPrefix(x, alpha, i + 1);
    var head := x[..i + 1];
    if i > 0 {
      assert head[..i] == x[..i];
      EmaPrefix(x, alpha, i);
    }
  }

  /** A convex combination of two values in [lo, hi] stays in [lo, hi]. */
  lemma Convex(alpha: real, a: real, b: real, lo: real, hi: real)
    requires 0.0 <= alpha <= 1.0
    requires lo <= a <= hi && lo <= b <= hi
    ensures lo <= alpha * a + (1.0 - alpha) * b <= hi
  {
    assert alpha * (a - lo) >= 0.0;
    assert (1.0 - alpha) * (b - lo) >= 0.0;
    assert alpha * (hi - a) >= 0.0;
    assert (1.0 - alpha) * (hi - b) >= 0.0;
  }

  /** Every entry of the average lies within any bounds of the observations so far. */
  lemma {:induction false} EmaWithin(x: seq<real>, alpha: real, i: nat, lo: real, hi: real)
    requires 0.0 <= alpha <= 1.0
    requires i < |x|
    requires forall j :: 0 <= j <= i ==> lo <= x[j] <= hi
    ensures lo <= Ema(x, alpha)[i] <= hi
  {
    EmaRecurrence(x, alpha, i);
    if i > 0 {
      EmaWithin(x, alpha, i - 1, lo, hi);
      Convex(alpha, x[i], Ema(x, alpha)[i - 1], lo, hi);
    }
  }

  /** The average of a run of equal observations is that value, for any alpha. */
  lemma {:induction false} EmaConstant(x: seq<real>, alpha: real, i: nat, c: real)
    requires i < |x|
    requires forall j :: 0 <= j <= i ==> x[j] == c
    ensures Ema(x, alpha)[i] == c
  {
    EmaRecurrence(x, alpha, i);
    if i > 0 {
      EmaConstant(x, alpha, i - 1, c);
      assert alpha * c + (1.0 - alpha) * c == c;
    }
  }

  /** Least element of a non-empty sequence. */
  function SeqMin(s: seq<real>): (m: real)
    requires |s| > 0
    ensures m in s
    ensures forall k :: 0 <= k < |s| ==> m <= s[k]
    decreases |s|
  {
    if |s| == 1 then s[0]
    else
      var m := SeqMin(s[..|s| - 1]);
      assert forall k :: 0 <= k < |s| - 1 ==> s[..|s| - 1][k] == s[k];
      if s[|s| - 1] < m then s[|s| - 1] else m
  }

  /** Greatest element of a non-empty sequence. */
  function SeqMax(s: seq<real>): (m: real)
    requires |s| > 0
    ensures m in s
    ensures forall k :: 0 <= k < |s| ==> s[k] <= m
    decreases |s|
  {
    if |s| == 1 then s[0]
    else
      var m := SeqMax(s[..|s| - 1]);
      assert forall k :: 0 <= k < |s| - 1 ==> s[..|s| - 1][k] == s[k];
      if s[|s| - 1] > m then s[|s| - 1] else m
  }

  /** Each entry of the average lies between the least and greatest observation so far. */
  lemma EmaBounds(x: seq<real>, alpha: real, i: nat)
    requires 0.0 < alpha <= 1.0
    requires i < |x|
    ensures SeqMin(x[..i + 1]) <= Ema(x, alpha)[i] <= SeqMax(x[..i + 1])
  {
    var head := x[..i + 1];
    assert forall j :: 0 <= j <= i ==> head[j] == x[j];
    EmaWithin(x, alpha, i, SeqMin(head), SeqMax(head));
  }
}
