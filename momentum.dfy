/**
 * indicators/momentum.py: the Relative Strength Index on the "Adj Close"
 * column and the MACD histogram.
 *
 * A DataFrame enters as the chronologically ordered "Adj Close" column, a
 * sequence of reals; each indicator returns a new column of the same length.
 */
module Momentum {
  import opened XReals
  import opened SeriesOps

  /**
   * What the RSI functions return: a derived column, or, for an empty input
   * column, the one-element list holding a message.
   */
  datatype RsiResult = Series(values: seq<XReal>) | Message(text: string)

  // ---------------------------------------------------------------------
  // RSI, as the code computes it
  // ---------------------------------------------------------------------

  /** `gains = delta.where(delta > 0, 0)` with `delta = price.diff()`. */
  function Gains(prices: seq<real>): (r: seq<XReal>) {
    var delta := Diff(prices);
    Where(delta, GreaterThan(delta, 0.0), Fin(0.0))
  }

  /** `losses = -delta.where(delta < 0, 0)` with `delta = price.diff()`. */
  function Losses(prices: seq<real>): (r: seq<XReal>) {
    var delta := Diff(prices);
    Negate(Where(delta, LessThan(delta, 0.0), Fin(0.0)))
  }

  /** `100 - (100 / (1 + rs))` for one entry of `rs`. */
  function RsiOf(rs: XReal): (r: XReal) {
    Sub(Fin(100.0), Div(Fin(100.0), Add(Fin(1.0), rs)))
  }

  /** The RSI column for a non-empty price column: rolling means, their ratio, the index. */
  function RsiSeries(prices: seq<real>, period: nat): (r: seq<XReal>)
    ensures |r| == |prices|
  {
    var avgGain := RollingMean(Gains(prices), period);
    var avgLoss := RollingMean(Losses(prices), period);
    var rs := Divide(avgGain, avgLoss);
    seq(|rs|, i requires 0 <= i < |rs| => RsiOf(rs[i]))
  }

  /** `calculate_rsi(df, period)`: the message for an empty column, otherwise the RSI column. */
  function CalculateRsi(prices: seq<real>, period: nat): (r: RsiResult)
    ensures r.Message? <==> |prices| == 0
    ensures r.Message? ==> r.text == "No data"
    ensures r.Series? ==> |r.values| == |prices|
  {
    if |prices| == 0 then Message("No data")
    else Series(RsiSeries(prices, period))
  }

  /** The window both `calculate_rsi` functions use when the caller gives none. */
  const DefaultPeriod: nat := 14

  /**
   * With the default period the first 13 entries are undefined, and every
   * later entry is the index of its trailing 14-row window.
   */
  lemma DefaultPeriodWarmUp(prices: seq<real>, i: nat)
    requires i < |prices|
    ensures CalculateRsi(prices, DefaultPeriod).Series?
    ensures i < DefaultPeriod - 1 ==> CalculateRsi(prices, DefaultPeriod).values[i] == NaN
    ensures i >= DefaultPeriod - 1 ==> CalculateRsi(prices, DefaultPeriod).values[i] == RsiAt(prices, DefaultPeriod, i)
  {
    RsiSeriesAt(prices, DefaultPeriod, i);
  }

  // ---------------------------------------------------------------------
  // RSI, as defined on reals
  // ---------------------------------------------------------------------

  /** The up-move into row j: max(price[j] - price[j-1], 0), and 0 at the first row. */
  function GainAt(prices: seq<real>, j: nat): (r: real)
    requires j < |prices|
  {
    if j == 0 then 0.0
    else if prices[j] > prices[j - 1] then prices[j] - prices[j - 1]
    else 0.0
  }

  /** The down-move into row j: max(price[j-1] - price[j], 0), and 0 at the first row. */
  function LossAt(prices: seq<real>, j: nat): (r: real)
    requires j < |prices|
  {
    if j == 0 then 0.0
    else if prices[j] < prices[j - 1] then prices[j - 1] - prices[j]
    else 0.0
  }

  function GainColumn(prices: seq<real>): (r: seq<real>)
    ensures |r| == |prices|
  {
    seq(|prices|, j requires 0 <= j < |prices| => GainAt(prices, j))
  }

  function LossColumn(prices: seq<real>): (r: seq<real>)
    ensures |r| == |prices|
  {
    seq(|prices|, j requires 0 <= j < |prices| => LossAt(prices, j))
  }

  /** Mean of the `period` entries of `column` ending at row i. */
  function TrailingMean(column: seq<real>, period: nat, i: nat): (r: real)
    requires 1 <= period <= i + 1 <= |column|
  {
    RSum(column, i + 1 - period, i + 1) / period as real
  }

  /** Average up-move over the window ending at row i. */
  function AvgGain(prices: seq<real>, period: nat, i: nat): (r: real)
    requires 1 <= period <= i + 1 <= |prices|
  {
    TrailingMean(GainColumn(prices), period, i)
  }

  /** Average down-move over the window ending at row i. */
  function AvgLoss(prices: seq<real>, period: nat, i: nat): (r: real)
    requires 1 <= period <= i + 1 <= |prices|
  {
    TrailingMean(LossColumn(prices), period, i)
  }

  /**
   * The index from the two averages: 100 * g / (g + l) while there are
   * losses, 100 when there are gains and no losses, undefined when both are 0.
   */
  function RsiFromAverages(g: real, l: real): (r: XReal)
    requires g >= 0.0 && l >= 0.0
    ensures r.Fin? || r.NaN?
    ensures r.Fin? ==> 0.0 <= r.v <= 100.0
    ensures l > 0.0 ==> r.Fin? && r.v < 100.0
  {
    if l > 0.0 then
      assert 100.0 * g / (g + l) < 100.0 by { HundredShare(g, l); }
      Fin(100.0 * g / (g + l))
    else if g > 0.0 then Fin(100.0)
    else NaN
  }

  lemma HundredShare(g: real, l: real)
    requires g >= 0.0 && l > 0.0
    ensures 0.0 <= 100.0 * g / (g + l) < 100.0
  {
    DivBelow(100.0 * g, 100.0 * (g + l), g + l);
    assert 100.0 * (g + l) / (g + l) == 100.0;
  }

  lemma DivBelow(a: real, b: real, s: real)
    requires 0.0 <= a < b && s > 0.0
    ensures 0.0 <= a / s < b / s
  {
  }

  /** Division undoes multiplication by a non-zero factor. */
  lemma DivideOut(x: real, y: real, d: real)
    requires d != 0.0 && x * d == y
    ensures x == y / d
  {
  }

  /** Entry i of the RSI column, from the prices alone. */
  function RsiAt(prices: seq<real>, period: nat, i: nat): (r: XReal)
    requires i < |prices|
  {
    if period == 0 || i + 1 < period then NaN
    else
      AveragesNonNegative(prices, period, i);
      RsiFromAverages(AvgGain(prices, period, i), AvgLoss(prices, period, i))
  }

  // ---------------------------------------------------------------------
  // RSI properties
  // ---------------------------------------------------------------------

  /**
   * Each change splits into a gain and a loss: both non-negative, at most one
   * non-zero, their difference the price change, and both 0 at the first row.
   */
  lemma GainLossValues(prices: seq<real>, j: nat)
    requires j < |prices|
    ensures GainAt(prices, j) >= 0.0 && LossAt(prices, j) >= 0.0
    ensures GainAt(prices, j) == 0.0 || LossAt(prices, j) == 0.0
    ensures j == 0 ==> GainAt(prices, j) == 0.0 && LossAt(prices, j) == 0.0
    ensures j > 0 ==> GainAt(prices, j) - LossAt(prices, j) == prices[j] - prices[j - 1]
  {
  }

  /** Row by row, the where/negate pipeline computes exactly these gains and losses. */
  lemma GainLossSplit(prices: seq<real>, j: nat)
    requires j < |prices|
    ensures |Gains(prices)| == |prices| && |Losses(prices)| == |prices|
    ensures Gains(prices)[j] == Fin(GainAt(prices, j))
    ensures Losses(prices)[j] == Fin(LossAt(prices, j))
  {
  }

  lemma GainsLift(prices: seq<real>)
    ensures Gains(prices) == Lift(GainColumn(prices))
    ensures Losses(prices) == Lift(LossColumn(prices))
  {
    forall j | 0 <= j < |prices|
      ensures Gains(prices)[j] == Lift(GainColumn(prices))[j]
      ensures Losses(prices)[j] == Lift(LossColumn(prices))[j]
    {
      GainLossSplit(prices, j);
    }
  }

  lemma AveragesNonNegative(prices: seq<real>, period: nat, i: nat)
    requires 1 <= period <= i + 1 <= |prices|
    ensures AvgGain(prices, period, i) >= 0.0 && AvgLoss(prices, period, i) >= 0.0
  {
    var a := i + 1 - period;
    WindowSumsNonNegative(prices, a, i);
    NonNegativeMean(RSum(GainColumn(prices), a, i + 1), period);
    NonNegativeMean(RSum(LossColumn(prices), a, i + 1), period);
  }

  lemma WindowSumsNonNegative(prices: seq<real>, a: nat, i: nat)
    requires a <= i < |prices|
    ensures RSum(GainColumn(prices), a, i + 1) >= 0.0
    ensures RSum(LossColumn(prices), a, i + 1) >= 0.0
  {
    forall k | a <= k <= i ensures GainColumn(prices)[k] >= 0.0 && LossColumn(prices)[k] >= 0.0 {
      GainLossValues(prices, k);
    }
    RSumNonNegative(GainColumn(prices), a, i + 1);
    RSumNonNegative(LossColumn(prices), a, i + 1);
  }

  lemma NonNegativeMean(total: real, n: nat)
    requires total >= 0.0 && n >= 1
    ensures total / n as real >= 0.0
  {
  }

  /** `100 - 100 / (1 + g / l)` on non-negative averages is RsiFromAverages. */
  lemma RsiOfRatio(g: real, l: real)
    requires g >= 0.0 && l >= 0.0
    ensures RsiOf(Div(Fin(g), Fin(l))) == RsiFromAverages(g, l)
  {
    if l > 0.0 {
      var q := g / l;
      assert Div(Fin(g), Fin(l)) == Fin(q);
      QuotientNonNegative(g, l);
      assert Add(Fin(1.0), Fin(q)) == Fin(1.0 + q);
      assert Div(Fin(100.0), Fin(1.0 + q)) == Fin(100.0 / (1.0 + q));
      ShareIdentity(g, l);
    } else if g > 0.0 {
      assert Div(Fin(g), Fin(l)) == PosInf;
    } else {
      assert Div(Fin(g), Fin(l)) == NaN;
    }
  }

  lemma QuotientNonNegative(g: real, l: real)
    requires g >= 0.0 && l > 0.0
    ensures g / l >= 0.0
  {
  }

  /** 100 - 100 / (1 + g / l) == 100 * g / (g + l) for g >= 0 and l > 0. */
  lemma ShareIdentity(g: real, l: real)
    requires g >= 0.0 && l > 0.0
    ensures 100.0 - 100.0 / (1.0 + g / l) == 100.0 * g / (g + l)
  {
    var q := g / l;
    var s := g + l;
    assert q * l == g;
    assert (1.0 + q) * l == s;
    var a := 100.0 / (1.0 + q);
    assert a * (1.0 + q) == 100.0;
    assert a * s == 100.0 * l by {
      assert a * s == a * ((1.0 + q) * l);
      assert a * ((1.0 + q) * l) == (a * (1.0 + q)) * l;
    }
    assert (100.0 - a) * s == 100.0 * g;
    DivideOut(100.0 - a, 100.0 * g, s);
  }

  /** Every entry of the RSI column is the index of the trailing averages. */
  lemma RsiSeriesAt(prices: seq<real>, period: nat, i: nat)
    requires i < |prices|
    ensures RsiSeries(prices, period)[i] == RsiAt(prices, period, i)
  {
    RsiSeriesEntry(prices, period, i);
    RollingAverages(prices, period, i);
    if period >= 1 && i + 1 >= period {
      AveragesNonNegative(prices, period, i);
      RsiOfRatio(AvgGain(prices, period, i), AvgLoss(prices, period, i));
    } else {
      assert RsiOf(Div(NaN, NaN)) == NaN;
    }
  }

  /** Entry i of the RSI column applies the index formula to entry i of the two rolling means. */
  lemma RsiSeriesEntry(prices: seq<real>, period: nat, i: nat)
    requires i < |prices|
    ensures RsiSeries(prices, period)[i]
         == RsiOf(Div(RollingMean(Gains(prices), period)[i], RollingMean(Losses(prices), period)[i]))
  {
  }

  /** The rolling means of the gain and loss columns are AvgGain and AvgLoss once the window is full. */
  lemma RollingAverages(prices: seq<real>, period: nat, i: nat)
    requires i < |prices|
    ensures period == 0 || i + 1 < period ==>
              RollingMean(Gains(prices), period)[i] == NaN && RollingMean(Losses(prices), period)[i] == NaN
    ensures 1 <= period <= i + 1 ==>
              && RollingMean(Gains(prices), period)[i] == Fin(AvgGain(prices, period, i))
              && RollingMean(Losses(prices), period)[i] == Fin(AvgLoss(prices, period, i))
  {
    GainsLift(prices);
    RollingMeanLift(GainColumn(prices), period, i);
    RollingMeanLift(LossColumn(prices), period, i);
  }

  /**
   * The RSI column entry by entry: undefined before the window is full;
   * afterwards 100 * g / (g + l) in [0, 100) where the average loss is
   * positive, 100 where only the average loss is 0, and undefined where
   * both averages are 0.
   */
  lemma RsiCases(prices: seq<real>, period: nat, i: nat)
    requires i < |prices|
    ensures CalculateRsi(prices, period).Series?
    ensures var r := CalculateRsi(prices, period).values[i];
      && (period == 0 || i + 1 < period ==> r == NaN)
      && (1 <= period <= i + 1 ==>
            var g, l := AvgGain(prices, period, i), AvgLoss(prices, period, i);
            && g >= 0.0 && l >= 0.0
            && (l > 0.0 ==> r == Fin(100.0 * g / (g + l)) && 0.0 <= r.v < 100.0)
            && (l == 0.0 && g > 0.0 ==> r == Fin(100.0))
            && (l == 0.0 && g == 0.0 ==> r == NaN))
  {
    RsiSeriesAt(prices, period, i);
    RsiAtCases(prices, period, i);
  }

  lemma RsiAtCases(prices: seq<real>, period: nat, i: nat)
    requires i < |prices|
    ensures var r := RsiAt(prices, period, i);
      && (period == 0 || i + 1 < period ==> r == NaN)
      && (1 <= period <= i + 1 ==>
            var g, l := AvgGain(prices, period, i), AvgLoss(prices, period, i);
            && g >= 0.0 && l >= 0.0
            && (l > 0.0 ==> r == Fin(100.0 * g / (g + l)) && 0.0 <= r.v < 100.0)
            && (l == 0.0 && g > 0.0 ==> r == Fin(100.0))
            && (l == 0.0 && g == 0.0 ==> r == NaN))
  {
    if 1 <= period <= i + 1 {
      AveragesNonNegative(prices, period, i);
    }
  }

  /** Wherever the RSI is a number it lies in [0, 100]; it is never infinite. */
  lemma RsiBounded(prices: seq<real>, period: nat, i: nat)
    requires i < |prices|
    ensures var r := RsiSeries(prices, period)[i];
      (r.Fin? || r.NaN?) && (r.Fin? ==> 0.0 <= r.v <= 100.0)
  {
    RsiCases(prices, period, i);
  }

  /**
   * Causality: entry i depends only on the price changes in the window
   * `i - period + 1 .. i`; two columns with the same changes there agree at i.
   */
  lemma RsiWindowOnly(p: seq<real>, q: seq<real>, period: nat, i: nat)
    requires i < |p| && i < |q|
    requires forall j :: 0 <= j <= i && i < j + period ==> Diff(p)[j] == Diff(q)[j]
    ensures RsiSeries(p, period)[i] == RsiSeries(q, period)[i]
  {
    RsiSeriesAt(p, period, i);
    RsiSeriesAt(q, period, i);
    if 1 <= period <= i + 1 {
      WindowAverages(p, q, period, i);
    }
  }

  lemma WindowAverages(p: seq<real>, q: seq<real>, period: nat, i: nat)
    requires i < |p| && i < |q| && 1 <= period <= i + 1
    requires forall j :: 0 <= j <= i && i < j + period ==> Diff(p)[j] == Diff(q)[j]
    ensures AvgGain(p, period, i) == AvgGain(q, period, i)
    ensures AvgLoss(p, period, i) == AvgLoss(q, period, i)
  {
    var a := i + 1 - period;
    forall j | a <= j <= i
      ensures GainColumn(p)[j] == GainColumn(q)[j] && LossColumn(p)[j] == LossColumn(q)[j]
    {
      if j > 0 {
        assert Diff(p)[j] == Fin(p[j] - p[j - 1]) && Diff(q)[j] == Fin(q[j] - q[j - 1]);
      }
    }
    RSumSameEntries(GainColumn(p), GainColumn(q), a, i + 1);
    RSumSameEntries(LossColumn(p), LossColumn(q), a, i + 1);
  }

  /** The RSI of a prefix of the prices is the prefix of the RSI: no lookahead. */
  lemma RsiPrefix(prices: seq<real>, period: nat, k: nat)
    requires k <= |prices|
    ensures RsiSeries(prices[..k], period) == RsiSeries(prices, period)[..k]
  {
    var head := prices[..k];
    forall i | 0 <= i < k
      ensures RsiSeries(head, period)[i] == RsiSeries(prices, period)[i]
    {
      RsiWindowOnly(head, prices, period, i);
    }
  }

  /** A window of strictly rising prices saturates the index at 100. */
  lemma RsiRisingIsHundred(prices: seq<real>, period: nat, i: nat)
    requires 1 <= i < |prices| && 1 <= period <= i + 1
    requires forall j :: i + 1 - period <= j <= i && j >= 1 ==> prices[j - 1] < prices[j]
    ensures RsiSeries(prices, period)[i] == Fin(100.0)
  {
    RsiSeriesAt(prices, period, i);
    RisingAverages(prices, period, i);
  }

  lemma RisingAverages(prices: seq<real>, period: nat, i: nat)
    requires 1 <= i < |prices| && 1 <= period <= i + 1
    requires forall j :: i + 1 - period <= j <= i && j >= 1 ==> prices[j - 1] < prices[j]
    ensures AvgGain(prices, period, i) > 0.0 && AvgLoss(prices, period, i) == 0.0
  {
    var a := i + 1 - period;
    RisingSums(prices, a, i);
    PositiveMean(RSum(GainColumn(prices), a, i + 1), period);
  }

  /** Over rows a..i of strictly rising prices, the gains sum to a positive total and the losses to 0. */
  lemma RisingSums(prices: seq<real>, a: nat, i: nat)
    requires a <= i < |prices| && 1 <= i
    requires forall j :: a <= j <= i && j >= 1 ==> prices[j - 1] < prices[j]
    ensures RSum(GainColumn(prices), a, i + 1) > 0.0
    ensures RSum(LossColumn(prices), a, i + 1) == 0.0
  {
    forall j | a <= j <= i ensures LossColumn(prices)[j] == 0.0 {
      if j >= 1 {
        assert prices[j - 1] < prices[j];
      }
      RisingLoss(prices, j);
    }
    RSumZero(LossColumn(prices), a, i + 1);
    forall j | a <= j <= i ensures GainColumn(prices)[j] >= 0.0 {
      GainLossValues(prices, j);
    }
    RisingLoss(prices, i);
    RSumPositive(GainColumn(prices), a, i + 1, i);
  }

  lemma RisingLoss(prices: seq<real>, j: nat)
    requires j < |prices|
    requires j >= 1 ==> prices[j - 1] < prices[j]
    ensures LossAt(prices, j) == 0.0
    ensures j >= 1 ==> GainAt(prices, j) > 0.0
  {
  }

  lemma PositiveMean(total: real, n: nat)
    requires total > 0.0 && n >= 1
    ensures total / n as real > 0.0
  {
  }

  /** A window of unchanged prices leaves the index undefined (0 / 0). */
  lemma RsiFlatIsUndefined(prices: seq<real>, period: nat, i: nat)
    requires i < |prices| && 1 <= period <= i + 1
    requires forall j :: i + 1 - period <= j <= i && j >= 1 ==> prices[j - 1] == prices[j]
    ensures RsiSeries(prices, period)[i] == NaN
  {
    RsiSeriesAt(prices, period, i);
    FlatAverages(prices, period, i);
  }

  lemma FlatAverages(prices: seq<real>, period: nat, i: nat)
    requires i < |prices| && 1 <= period <= i + 1
    requires forall j :: i + 1 - period <= j <= i && j >= 1 ==> prices[j - 1] == prices[j]
    ensures AvgGain(prices, period, i) == 0.0 && AvgLoss(prices, period, i) == 0.0
  {
    FlatSums(prices, i + 1 - period, i);
  }

  /** Over rows a..i of unchanged prices, the gains and the losses both sum to 0. */
  lemma FlatSums(prices: seq<real>, a: nat, i: nat)
    requires a <= i < |prices|
    requires forall j :: a <= j <= i && j >= 1 ==> prices[j - 1] == prices[j]
    ensures RSum(GainColumn(prices), a, i + 1) == 0.0
    ensures RSum(LossColumn(prices), a, i + 1) == 0.0
  {
    forall j | a <= j <= i ensures GainColumn(prices)[j] == 0.0 && LossColumn(prices)[j] == 0.0 {
      GainLossValues(prices, j);
    }
    RSumZero(GainColumn(prices), a, i + 1);
    RSumZero(LossColumn(prices), a, i + 1);
  }

  // ---------------------------------------------------------------------
  // MACD histogram
  // ---------------------------------------------------------------------

  const FastSpan: real := 12.0
  const SlowSpan: real := 26.0
  const SignalSpan: real := 9.0

  /** The MACD line: `ema_12 - ema_26`. */
  function MacdLine(prices: seq<real>): (r: seq<real>)
    ensures |r| == |prices|
  {
    Minus(Ema(prices, SpanAlpha(FastSpan)), Ema(prices, SpanAlpha(SlowSpan)))
  }

  /** `calculate_macd(df)`: the MACD line minus its 9-span signal line. */
  function CalculateMacd(prices: seq<real>): (r: seq<real>)
    ensures |r| == |prices|
  {
    var macd := MacdLine(prices);
    var signal := Ema(macd, SpanAlpha(SignalSpan));
    Minus(macd, signal)
  }

  /** The histogram of a prefix of the prices is the prefix of the histogram. */
  lemma MacdPrefix(prices: seq<real>, k: nat)
    requires k <= |prices|
    ensures CalculateMacd(prices[..k]) == CalculateMacd(prices)[..k]
  {
    var fast, slow := SpanAlpha(FastSpan), SpanAlpha(SlowSpan);
    EmaPrefix(prices, fast, k);
    EmaPrefix(prices, slow, k);
    MinusPrefix(Ema(prices, fast), Ema(prices, slow), k);
    var line := MacdLine(prices);
    assert MacdLine(prices[..k]) == line[..k];
    EmaPrefix(line, SpanAlpha(SignalSpan), k);
    MinusPrefix(line, Ema(line, SpanAlpha(SignalSpan)), k);
  }

  /** While the price has not moved, the MACD line, the signal line and the histogram are 0. */
  lemma MacdFlatIsZero(prices: seq<real>, i: nat, c: real)
    requires i < |prices|
    requires forall j :: 0 <= j <= i ==> prices[j] == c
    ensures MacdLine(prices)[i] == 0.0
    ensures Ema(MacdLine(prices), SpanAlpha(SignalSpan))[i] == 0.0
    ensures CalculateMacd(prices)[i] == 0.0
  {
    var line := MacdLine(prices);
    forall j | 0 <= j <= i ensures line[j] == 0.0 {
      EmaConstant(prices, SpanAlpha(FastSpan), j, c);
      EmaConstant(prices, SpanAlpha(SlowSpan), j, c);
    }
    EmaConstant(line, SpanAlpha(SignalSpan), i, 0.0);
  }

  /**
   * A step up after a flat stretch: the histogram is 0 on the flat rows and
   * turns positive on the row of the step.
   */
  lemma MacdStepUp(prices: seq<real>, k: nat, c: real)
    requires 1 <= k < |prices|
    requires forall j :: 0 <= j < k ==> prices[j] == c
    requires prices[k] > c
    ensures forall j :: 0 <= j < k ==> CalculateMacd(prices)[j] == 0.0
    ensures CalculateMacd(prices)[k] > 0.0
  {
    forall j | 0 <= j < k ensures CalculateMacd(prices)[j] == 0.0 {
      MacdFlatIsZero(prices, j, c);
    }
    var fast, slow, sig := SpanAlpha(FastSpan), SpanAlpha(SlowSpan), SpanAlpha(SignalSpan);
    var line := MacdLine(prices);
    MacdFlatIsZero(prices, k - 1, c);
    EmaConstant(prices, fast, k - 1, c);
    EmaConstant(prices, slow, k - 1, c);
    EmaRecurrence(prices, fast, k);
    EmaRecurrence(prices, slow, k);
    EmaRecurrence(line, sig, k);
    var d := prices[k] - c;
    assert line[k] == (fast - slow) * d;
    assert fast - slow > 0.0;
    assert line[k] > 0.0;
    assert CalculateMacd(prices)[k] == (1.0 - sig) * line[k];
  }
}
