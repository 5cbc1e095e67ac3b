# BTC/ETH moving-average swap bot: a Dafny model

This project models the decision core of `buysell.py`, a live BTC/ETH "arbitrage" bot. It covers
four pieces:

- **Signal engine** (`calculate_ma`). For every row of a (timestamp, ratio) frame it computes a
  short and a long moving average of the ratio and a signal of 1 (favour BTC) or -1 (favour ETH).
  The averages are exponential (`ewm(span=w, adjust=False)`) or simple
  (`rolling(window=w).mean()`).
- **History**. `LiveArbitrageBot` keeps a history that grows by one row per successful sample, and
  it holds a BTC and an ETH balance.
- **Swap decision** (`generate_signal`). Once the history holds `LONG_WINDOW` rows, the last row's
  signal and ratio decide whether to propose ETH -> BTC or BTC -> ETH, and the gain it reports.
- **Loop body** (`run_live`). One pass samples, decides and sleeps. A finite stretch of the
  endless loop is modelled as a loop over a sequence of passes.

Values are exact reals. A pandas NaN is `Option.None`.

Modules, by file:

- `wrappers.dfy`: `Option`.
- `settings.dfy`: the settings constants (`FEE = 0.015`, `SHORT_WINDOW = 10`, `LONG_WINDOW = 50`,
  `USE_EMA = true`, `CHECK_INTERVAL = 3600`, and the 60-second error delay), the positive `Ratio`
  type and the `Window` type (a window of at least 1).
- `moving_average.dfy`: the EMA and rolling-mean columns and their properties.
- `indicators.dfy`: the frame rows, `SignalOf` and `CalculateMa`.
- `bot.dfy`: `Decide`, the `LiveArbitrageBot` class and the run-loop functions.

Inputs from outside the program are parameters:

- **Exchange**. The ratio that `get_live_ratio` returns is passed in. `None` stands for a call
  that raised.
- **Clock**. `datetime.now()` is an opaque integer `Timestamp`.
- **Telegram**. Whether the alert's delivery raised is a boolean on each pass.

### Notes on the source's behaviour

- A signal is computed for every row of the frame (buysell.py:36). EMA averages are defined from
  the first row. Where an SMA average is NaN, the comparison is false and the signal is -1. Only
  the swap decision waits for `LONG_WINDOW` rows (buysell.py:66).
- The reported gain is `eth * ratio * (1 - FEE)` for ETH -> BTC (buysell.py:73) and
  `btc / ratio * (1 - FEE)` for BTC -> ETH (buysell.py:79). Current holdings are not subtracted,
  so 1 BTC and 10 ETH at ratio 10 with signal 1 report 98.5 (`Bot.SwapAmountExample`).
- The ratio is the BTC price divided by the ETH price (buysell.py:24-26), that is ETH per BTC.
  The two gain formulas apply it the other way round (ETH times ratio, BTC divided by ratio); the
  model keeps them exactly as written.
- In SMA mode with windows 2 and 5, the ratios 1,1,1,1,1,2,2,2,2,2 give a signal that goes from
  -1 to 1 once, at index 5, and back to -1 at index 9, where both averages are 2 and the tie gives
  -1 (`Indicators.CrossoverExample`). `Indicators.SignalsAgree` ties that signal column to the one
  `calculate_ma` produces.

## Model

| member | source | states |
|---|---|---|
| `MovingAverage.Alpha` | buysell.py:31-32 | the EMA smoothing factor for span w lies in (0, 1] and satisfies a * (w + 1) = 2, that is a = 2/(w+1) |
| `MovingAverage.EmaStep` | buysell.py:31-32 | definition of one adjust=False step, (1 - a) * prev + a * x with a = 2/(w+1); the result lies between prev and x, and equals x when w = 1 |
| `MovingAverage.Ema` | buysell.py:31-32 | the EMA column has exactly one value per sample |
| `MovingAverage.EmaPrefix` | buysell.py:31-32 | the EMA of the first k samples is the first k values of the EMA: each value depends only on the samples up to it |
| `MovingAverage.EmaRecurrence` | buysell.py:31-32 | adjust=False semantics: y[0] = x[0], and y[i] = (1 - a) * y[i-1] + a * x[i] with a = 2/(w+1) (EmaStep) |
| `MovingAverage.EmaWithin` | buysell.py:31-32 | if every sample lies in [lo, hi], every EMA value lies in [lo, hi] |
| `MovingAverage.EmaBetweenMinMax` | buysell.py:31-32 | the EMA at index i lies between the least and the greatest of samples 0..i |
| `MovingAverage.Mean` | buysell.py:34-35 | definition of the value a full rolling window produces: the arithmetic mean, whose product with the window length is the window's sum |
| `MovingAverage.RollingMean` | buysell.py:34-35 | the rolling-mean column has exactly one entry per sample |
| `MovingAverage.RollingMeanAt` | buysell.py:34-35 | entry i is NaN (None) when i < w - 1, and otherwise the arithmetic mean of samples i-w+1..i |
| `MovingAverage.SumWithin` | buysell.py:34-35 | a sum of n samples in [lo, hi] lies in [n * lo, n * hi] |
| `MovingAverage.MeanWithin` | buysell.py:34-35 | a mean of samples in [lo, hi] lies in [lo, hi] |
| `MovingAverage.MeanBetweenMinMax` | buysell.py:34-35 | a mean lies between the least and greatest sample it averages |
| `MovingAverage.RollingMeanBetweenMinMax` | buysell.py:34-35 | from index w - 1 on, the rolling mean is defined and lies between the least and the greatest sample of its window |
| `MovingAverage.Average` | buysell.py:30-35 | the average column that calculate_ma assigns, in either mode, has one entry per sample |
| `MovingAverage.AverageDefined` | buysell.py:30-35 | an entry is defined if and only if the mode is EMA or the index is at least w - 1 |
| `MovingAverage.AverageOfConstant` | buysell.py:30-35 | on a constant series r, every entry in either mode is NaN or exactly r |
| `Indicators.SignalOf` | buysell.py:36 | the signal is 1 or -1, and it is 1 if and only if both averages are defined and short > long; a tie or a NaN gives -1 |
| `Indicators.Signals` | buysell.py:36 | the signal column has one entry per sample |
| `Indicators.SignalsAgree` | buysell.py:36 | the signal column of the ratios is the signal column calculate_ma puts in the frame, row by row |
| `Indicators.CalculateMa` | buysell.py:29-37 | one output row per input row; timestamp and ratio are unchanged; each signal is 1 or -1, and 1 exactly when both averages are defined and short > long |
| `Indicators.CalculateMaEma` | buysell.py:31-32 | in EMA mode both averages are defined at every row, equal the first ratio at row 0, and follow the EMA recurrence from row to row |
| `Indicators.CalculateMaEmaWithin` | buysell.py:31-32 | in EMA mode both averages at row i lie between the least and the greatest ratio of rows 0..i |
| `Indicators.CalculateMaSma` | buysell.py:34-35 | in SMA mode an average over window w is defined exactly from row w - 1 on, where it equals the mean of the last w ratios |
| `Indicators.CalculateMaConstant` | buysell.py:31-36 | on a constant ratio r, both averages are NaN or r at every row in either mode, and every signal is -1 |
| `Indicators.CrossoverShortAverage` | buysell.py:34 | the 2-sample rolling mean of 1,1,1,1,1,2,2,2,2,2 is NaN, 1, 1, 1, 1, 1.5, 2, 2, 2, 2 |
| `Indicators.CrossoverLongAverage` | buysell.py:35 | the 5-sample rolling mean of the same series is NaN x4, 1, 1.2, 1.4, 1.6, 1.8, 2 |
| `Indicators.CrossoverExample` | buysell.py:34-36 | the SMA signal column for that series with windows 2 and 5 is -1 x5, 1 x4, -1 |
| `Indicators.SumOfWindow` | buysell.py:34-35 | a 2- or 5-sample sum is the sum of its elements |
| `Bot.LatestSignal` | buysell.py:67-68 | the signal of the last row of calculate_ma over the history is 1 or -1, and it is 1 exactly when both of that row's averages are defined and short > long |
| `Bot.Decide` | buysell.py:66-82 | no decision below LONG_WINDOW rows. ETH -> BTC if and only if the latest signal is 1 and eth > 0, with amount eth * ratio * (1 - FEE). BTC -> ETH if and only if the signal is -1 and btc > 0, with amount btc / ratio * (1 - FEE). The amount is always > 0, and the ratio reported is the last row's |
| `Bot.DecideOnConstantHistory` | buysell.py:66-82 | on a constant ratio r, the only decision ever made is BTC -> ETH of btc / r * (1 - FEE), once LONG_WINDOW rows exist and btc > 0 |
| `Bot.SwapAmountExample` | buysell.py:71-73 | with 1 BTC and 10 ETH at ratio 10 and signal 1, the reported gain is 98.5 |
| `Bot.LiveArbitrageBot.constructor` | buysell.py:51-54 | the history starts empty, with 1.0 BTC and 10.0 ETH |
| `Bot.LiveArbitrageBot.UpdateHistoricalData` | buysell.py:56-63 | on a successful fetch, exactly one row (now, ratio) is appended, earlier rows are unchanged, and the ratio is returned; on a failed fetch the history is unchanged; the balances are never touched |
| `Bot.LiveArbitrageBot.GenerateSignal` | buysell.py:65-82 | returns Decide of the current history and balances, and nothing during warm-up; it modifies nothing (no modifies clause), so the history and balances are unchanged |
| `Bot.LiveArbitrageBot.RunLiveStep` | buysell.py:86-93 | one pass appends the fetched row, if any. It raises no alert when the fetch failed, and otherwise the decision on the new history. It sleeps 60 s after a failed fetch or a failed delivery, and CHECK_INTERVAL otherwise |
| `Bot.LiveArbitrageBot.RunLive` | buysell.py:84-93 | over a sequence of passes, the history becomes the old history followed by the rows of the successful fetches, in order; the alerts and sleeps are those of the passes in turn |
| `Bot.NewRows` | buysell.py:62 | passes append at most one row each, and every appended ratio is one that a pass fetched |
| `Bot.StepAlert` | buysell.py:87-89 | definition of one pass's alert: none when update_historical_data raised, so generate_signal is skipped; otherwise the decision on the new history, which is only made from LONG_WINDOW rows on and has a positive amount |
| `Bot.RunAlerts` | buysell.py:86-89 | a run reports one alert per pass |
| `Bot.RunAlertsAt` | buysell.py:86-89 | the alert of pass k is the decision on the history after the first k + 1 fetches, or none if pass k's fetch failed |
| `Bot.RunAlertsWarmUp` | buysell.py:66 | a pass after which the history can still hold fewer than LONG_WINDOW rows raises no alert |
| `Bot.RunSleeps` | buysell.py:90-93 | a run sleeps once per pass |
| `Bot.SleepAfter` | buysell.py:90-93 | the sleep is 60 s exactly when the fetch or the alert delivery raised, and CHECK_INTERVAL (3600 s) otherwise |
| `MovingAverage.Min` | buysell.py:31-32 | the least sample is one of the samples and is no greater than any of them |
| `MovingAverage.Max` | buysell.py:31-32 | the greatest sample is one of the samples and is no less than any of them |

## Left out

- `get_live_ratio` (buysell.py:23-26) calls the exchange over the network. Its result is a
  parameter: a positive `Ratio` on success, `None` when it raised. Zero or negative prices, and the
  division by zero they would cause, are outside the model.
- `send_telegram_alert` (buysell.py:40-47) and the `print` calls (buysell.py:75, 81, 85, 92) are
  HTTP and console side effects. The alert is returned as a `Swap` value instead. The text of the
  message, including its emoji and its 6- and 4-decimal formatting, is not modelled.
- The `run_live` loop (buysell.py:84-93) never ends. `RunLive` models a finite sequence of its
  passes, and the sleep itself becomes a returned number of seconds.
- The catch-all `except` in `run_live` is modelled only for the two sources of exceptions that
  the model has: the exchange call and the alert delivery.
- `live_dashboard` (buysell.py:96-114) renders with matplotlib. It redraws only when the history
  has more than `LONG_WINDOW` rows, a strict comparison unlike `generate_signal`'s `>=`.
- Thread start-up and the keep-alive loop (buysell.py:117-132) are concurrency. The source takes no
  lock, so there is no discipline to verify and none is invented.
- IEEE floating point and pandas NaN propagation are modelled as exact `real` and `Option`. The
  dtype of the concatenated frame is not modelled.
- `Indicators.CalculateMa`: the `column` argument (always `'ratio'`) is not a parameter.
- `Indicators.CalculateMa`: windows below 1 are excluded by the `Window` type. pandas refuses
  `span < 1`, and the source only uses 10 and 50.
- Timestamps are opaque integers. As in the source, they are not checked to be increasing.
- Nothing in the core changes `current_btc` or `current_eth` after construction. The model has no
  settlement action.
