# Momentum indicators of a trading simulator, modelled in Dafny

The trading simulator computes two momentum indicators over a stock's
chronologically ordered price column:

- the **Relative Strength Index** (RSI), written twice: once on the fixed
  column `"Adj Close"` (`indicators/momentum.py`) and once on a column chosen
  by name (`indicator.py`);
- the **MACD histogram**: the gap between a 12- and a 26-span exponential
  moving average, minus a 9-span moving average of that gap.

Both map a price column to a new column of the same length. This project
models them as pure functions over `seq<real>` and proves what they compute.

## Layout

- `xreals.dfy` — module `XReals`: the values a float column can hold
  (`Fin(v)`, `PosInf`, `NegInf`, `NaN`) and the IEEE-754 rules for adding,
  subtracting, dividing and comparing them. Finite arithmetic is exact.
- `series_ops.dfy` — module `SeriesOps`: the pandas Series operations the
  indicators use. These are `diff`, comparison with a scalar, `where`, unary
  minus, row-wise division and subtraction, `rolling(window).mean()` and
  `ewm(span, adjust=False).mean()`. The module also proves the moving
  average's properties.
- `momentum.dfy` — module `Momentum`: `calculate_rsi` and `calculate_macd` of
  `indicators/momentum.py`. It also gives a definition of RSI on reals
  (`GainAt`, `LossAt`, `AvgGain`, `AvgLoss`, `RsiFromAverages`, `RsiAt`) and
  lemmas tying the pandas pipeline to it.
- `indicator.dfy` — module `Indicator`: `calculate_rsi(df, column_name, period)`
  of `indicator.py`. Its arithmetic is the same chain of Series operations, so
  it reuses `Momentum.RsiSeries`.

In both RSI functions the empty-column return value, a one-element list
holding a string, is the constructor `Message(text)`. A computed column is
`Series(values)`. Pandas' NaN is `NaN` and +inf is `PosInf`.

In two places the code departs from the textbook RSI, and the model follows
the code:

- **Warm-up rows.** `delta.where(delta > 0, 0)` turns the missing first change
  into a gain of 0 and a loss of 0. So only the first `period - 1` entries of
  the RSI are undefined, not the first `period + 1`. The first full window
  counts that fake zero change as one of its `period` rows.
- **Flat windows.** The code has no special case for a zero average loss:
  - when the average gain is positive, `rs` is +inf and RSI is 100;
  - when both averages are 0 (unchanged prices), `0/0` gives NaN, so RSI is
    undefined rather than 100.

## Model

| member | source | states |
|---|---|---|
| `Momentum.CalculateRsi` | indicators/momentum.py:18-36 | Returns the message "No data" exactly when the column is empty; otherwise a column with as many entries as the input |
| `SeriesOps.DiffTelescopes` | indicators/momentum.py:22 | Summing the finite changes of `diff()` undoes it: the changes into rows `lo .. hi-1` add up to `p[hi-1] - p[lo-1]`, so `p[0]` plus the changes up to row i rebuilds `p[i]` |
| `Momentum.GainLossValues` | indicators/momentum.py:24-26 | Gain and loss of each row are non-negative, at most one is non-zero, gain minus loss is the price change for i >= 1, and both are 0 at row 0 |
| `Momentum.GainLossSplit` | indicators/momentum.py:25-26 | The `where`/negate pipeline yields a finite gain and loss at every row, including row 0 where the change is NaN, equal to `GainAt` and `LossAt` |
| `SeriesOps.RollingMeanLift` | indicators/momentum.py:29-30 | A rolling mean over finite entries is NaN before the window is full (and always for window 0), and otherwise the sum of the trailing `window` rows divided by `window` |
| `Momentum.RsiFromAverages` | indicators/momentum.py:33-34 | The index from two non-negative averages is never infinite, lies in [0, 100] when defined, and is below 100 whenever the average loss is positive |
| `Momentum.RsiOfRatio` | indicators/momentum.py:33-34 | `100 - 100/(1 + g/l)` under IEEE division equals `100·g/(g+l)` when l > 0, 100 when l = 0 < g, and NaN when g = l = 0 |
| `Momentum.RsiSeriesAt` | indicators/momentum.py:22-34 | Every entry of the pandas pipeline's output equals the RSI defined on reals from the trailing averages of gains and losses |
| `Momentum.RsiCases` | indicators/momentum.py:29-34 | On a non-empty column, entry i is NaN when i < period - 1 or period = 0. Otherwise it is `100·g/(g+l)` in [0, 100) when l > 0, 100 when only l is 0, and NaN when both averages are 0 |
| `Momentum.RsiBounded` | indicators/momentum.py:33-34 | Every RSI entry is a number in [0, 100] or NaN, and never infinite |
| `Momentum.RsiWindowOnly` | indicators/momentum.py:29-30 | Entry i depends only on the price changes in rows `i-period+1 .. i`: two columns with equal changes there agree at i |
| `Momentum.RsiPrefix` | indicators/momentum.py:22-34 | The RSI of a prefix of the prices is the prefix of the RSI, so no entry looks ahead |
| `Momentum.RsiRisingIsHundred` | indicators/momentum.py:33-34 | A full window of strictly rising prices that contains a real change gives RSI = 100 |
| `Momentum.RsiFlatIsUndefined` | indicators/momentum.py:33-34 | A full window of unchanged prices gives NaN (0/0), not 100 |
| `SeriesOps.SpanAlpha` | indicators/momentum.py:40-41 | For a span of at least 1, `α = 2/(span+1)` lies in (0, 1] |
| `SeriesOps.EmaRecurrence` | indicators/momentum.py:40-41 | The adjust=False average starts at `x[0]` and then follows `ema[i] = α·x[i] + (1-α)·ema[i-1]` at every row |
| `SeriesOps.EmaPrefix` | indicators/momentum.py:40-41 | The average of a prefix is the prefix of the average, so it is causal |
| `SeriesOps.EmaWithin` | indicators/momentum.py:40-41 | For 0 ≤ α ≤ 1, entry i lies within any bounds that hold for `x[0..i]` |
| `SeriesOps.EmaBounds` | indicators/momentum.py:40-41 | Entry i lies between the least and the greatest of `x[0..i]` |
| `SeriesOps.EmaConstant` | indicators/momentum.py:40-41 | Where all observations so far equal c, the average is c, for any α |
| `Momentum.CalculateMacd` | indicators/momentum.py:38-51 | The histogram has as many entries as the input, and every entry is a number |
| `Momentum.MacdPrefix` | indicators/momentum.py:40-51 | The histogram of a prefix of the prices is the prefix of the histogram |
| `Momentum.MacdFlatIsZero` | indicators/momentum.py:40-49 | While the price has not moved, the MACD line, the signal line and the histogram are 0. In particular a constant price column has a histogram of all zeros |
| `Momentum.MacdStepUp` | indicators/momentum.py:40-49 | After a flat stretch, a price step up makes the histogram positive on the row of the step; it is 0 on all earlier rows |
| `Momentum.DefaultPeriodWarmUp` | indicators/momentum.py:4 | With the default `period = 14` (`Momentum.DefaultPeriod`), the first 13 entries are NaN and every later entry is the index of its trailing 14-row window. `indicator.py:5` has the same default |
| `Indicator.CalculateRsi` | indicator.py:19-37 | Returns "The column <name> is empty." exactly when the column is empty; otherwise a column of the input's length |
| `Indicator.MessageNamesColumn` | indicator.py:20-21 | Two empty-column messages are equal exactly when the column names are, so the message identifies the column |
| `Indicator.RsiEntries` | indicator.py:23-35 | The same entry-wise cases as for the fixed column: NaN before the window is full; in [0, 100) when l > 0; 100 when only l is 0; NaN when both averages are 0 |
| `Indicator.RsiTrailingWindow` | indicator.py:30-31 | Entry i is computed only from the price changes in the trailing `period` rows |
| `Indicator.AgreesWithMomentum` | indicator.py:5-37 | On column "Adj Close" and non-empty input, the result equals that of the fixed-column version. On empty input both return a message, with different words |

The gain/loss split (`Momentum.GainLossValues`, `Momentum.GainLossSplit`)
covers `indicator.py:23-27` too. `Indicator.CalculateRsi` computes its column
with the same functions.

## Left out

- The DataFrame itself: the column lookup `df[name]` and its `KeyError` for a missing column are not modelled. The selected column is passed in as a sequence.
- Floating point: rounding, overflow and the sign of zero are not modelled. `-delta.where(delta < 0, 0)` gives -0.0 as the loss on every row without a fall (rising rows, flat rows and row 0), so the average loss can be -0.0. The sign does not change the RSI. With a positive average gain g, `g / -0.0` is -inf, and `100 - 100/(1 + -inf)` is `100 - (-0.0)`, which is 100, as with +0. With `g = 0`, `0 / -0.0` is NaN, as with +0. So treating every zero as +0 gives the same results.
- Negative periods and spans below 1, which pandas rejects with an exception: `period` is a `nat`, and `SeriesOps.SpanAlpha` requires `span >= 1`. The three spans the code uses (12, 26, 9) meet this.
- Missing or infinite prices: the prices are finite reals, so a price column holding NaN or ±inf is outside the model. In the source, `calculate_macd` would pass such a column straight to `ewm`. In `calculate_rsi`, `where` would turn the NaN changes around such a row into a gain of 0 and a loss of 0.
- `marketData.py`: the network download, the JSON file it writes and its printing are I/O.
- `analysis.py` and `strategies/analysis.py`: reading JSON, renaming columns, printing and plotting are glue around the indicators.
- `strategies/momentum_signals.py`: `calculate_rsi_strength` has only a docstring and no body, so there is no behaviour to model. ROC, the Stochastic Oscillator and MFI appear there only as names in a list and are not implemented.
- `test.py` and `getToken.py`: a chat-bot polling loop and an environment-variable lookup are foreign library calls and I/O.
