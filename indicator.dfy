/**
 * indicator.py: the Relative Strength Index on a column chosen by name.
 *
 * The selected column enters as a sequence of reals together with its name;
 * an empty column yields a message naming it. The arithmetic is the same
 * chain of Series operations as in indicators/momentum.py, so the column is
 * computed by Momentum.RsiSeries.
 */
module Indicator {
  import opened XReals
  import opened SeriesOps
  import Momentum

  /** The message returned for an empty column. */
  function EmptyColumnMessage(columnName: string): (r: string) {
    "The column " + columnName + " is empty."
  }

  /** `calculate_rsi(df, column_name, period)`. */
  function CalculateRsi(columnName: string, column: seq<real>, period: nat): (r: Momentum.RsiResult)
    ensures r.Message? <==> |column| == 0
    ensures r.Message? ==> r.text == EmptyColumnMessage(columnName)
    ensures r.Series? ==> |r.values| == |column|
  {
    if |column| == 0 then Momentum.Message(EmptyColumnMessage(columnName))
    else Momentum.Series(Momentum.RsiSeries(column, period))
  }

  /** The empty-column message names the column: it can be read back from the message. */
  lemma MessageNamesColumn(a: string, b: string)
    ensures EmptyColumnMessage(a) == EmptyColumnMessage(b) <==> a == b
  {
    var ma, mb := EmptyColumnMessage(a), EmptyColumnMessage(b);
    var prefix := "The column ";
    if ma == mb {
      assert |a| == |b|;
      assert a == ma[|prefix|..|prefix| + |a|];
      assert b == mb[|prefix|..|prefix| + |b|];
    }
  }

  /**
   * Entry by entry, the RSI of a non-empty column: undefined before the window
   * is full; afterwards 100 * g / (g + l) in [0, 100) where the average loss
   * is positive, 100 where only the average loss is 0, and undefined where both
   * averages are 0, with g and l the averages of the gains and losses of the
   * trailing `period` rows.
   */
  lemma RsiEntries(columnName: string, column: seq<real>, period: nat, i: nat)
    requires i < |column|
    ensures CalculateRsi(columnName, column, period).Series?
    ensures var r := CalculateRsi(columnName, column, period).values[i];
      && (period == 0 || i + 1 < period ==> r == NaN)
      && (1 <= period <= i + 1 ==>
            var g, l := Momentum.AvgGain(column, period, i), Momentum.AvgLoss(column, period, i);
            && g >= 0.0 && l >= 0.0
            && (l > 0.0 ==> r == Fin(100.0 * g / (g + l)) && 0.0 <= r.v < 100.0)
            && (l == 0.0 && g > 0.0 ==> r == Fin(100.0))
            && (l == 0.0 && g == 0.0 ==> r == NaN))
  {
    Momentum.RsiCases(column, period, i);
  }

  /**
   * Entry i of a non-empty column's RSI is computed only from the price
   * changes in the trailing `period` rows ending at i.
   */
  lemma RsiTrailingWindow(columnName: string, p: seq<real>, q: seq<real>, period: nat, i: nat)
    requires i < |p| && i < |q|
    requires forall j :: 0 <= j <= i && i < j + period ==> Diff(p)[j] == Diff(q)[j]
    ensures CalculateRsi(columnName, p, period).values[i] == CalculateRsi(columnName, q, period).values[i]
  {
    Momentum.RsiWindowOnly(p, q, period, i);
  }

  /**
   * On column "Adj Close" this function and the fixed-column version agree on
   * a non-empty column; on an empty one both return a message, with different
   * words.
   */
  lemma AgreesWithMomentum(column: seq<real>, period: nat)
    ensures |column| > 0 ==> CalculateRsi("Adj Close", column, period) == Momentum.CalculateRsi(column, period)
    ensures |column| == 0 ==>
              && CalculateRsi("Adj Close", column, period) == Momentum.Message("The column Adj Close is empty.")
              && Momentum.CalculateRsi(column, period) == Momentum.Message("No data")
  {
  }
}
