# xau_once: a verified model of the signal checker's decision core

`xau_once.py` runs once per scheduled job. It fetches about a month of 5-minute
bars for each instrument group from Yahoo Finance, trying the group's symbols in
order, and normalises the frame to `time, o, h, l, c, v`. It adds EMA20/50,
RSI14, MACD 12/26/9 with its histogram and ATR14. It then classifies the last
two rows as BUY, SELL or WAIT and prints a report line. A Telegram alert is sent
only when the last bar closed within the freshness window and the side is
actionable.

This project models the part of that script that makes decisions:

- **Column resolution.** `_flatten` joins multi-level column tuples with `_`,
  dropping empty levels. `_pick` resolves a key against the labels
  case-insensitively in three passes: exact, then suffix, then substring
  (`Columns`).
- **Frame normalisation.** This covers:
  - the price picks, with the `history()` fallback on a `KeyError`;
  - the synthesised zero volume;
  - the choice of time column;
  - numeric coercion;
  - dropping incomplete rows;
  - keeping the last 220 bars (`Frames`).
- **The candidate loop of `fetch_df`.** The first symbol that yields a series
  wins. Otherwise the aggregate error carries the last candidate's error, and
  each failure prints a diagnostic (`BarSource`).
- **`add_indicators`.** The histogram is `macd - macd_signal`, and rows where
  any indicator is NaN are dropped. The indicator library itself is a parameter
  (`Indicators`).
- **`generate_signal`.** An EMA cross, filtered strictly by RSI, the histogram
  and the MACD-over-signal condition (`Signal`).
- **`last_bar_is_fresh`.** The bar's age must be within `[0, 4]` minutes
  (`Freshness`).
- **`run_for` and the loop of `main`.** These cover raising, skipping on fewer
  than two rows, the stale report, and the alert for a fresh BUY/SELL. Every
  group is run (`Runner`).

Some modelling choices:

- Instants are integer nanoseconds since the epoch. The current time is a
  parameter of the run: a clock reading per group.
- What the data source returns for a symbol (an exception, `None`, or a frame)
  is part of each candidate.
- Cells are `Num`, `Stamp`, `Missing` or `Text`:
  - `pd.to_numeric(errors="coerce")` turns `Text` and `Missing` into NaN, and a
    timestamp into its nanosecond value.
  - `pd.to_datetime` raises on a cell it cannot parse (`Num` or `Text` here),
    which becomes the candidate error `BadTime`.
- Reading a cell that a short column lacks yields `Missing`.
- The constants are those at `xau_once.py:20-33`:
  - 220 bars;
  - a 4.0-minute window;
  - RSI 55/45;
  - a histogram threshold of 0.02.

## Model

| member | source | states |
|---|---|---|
| Columns.Flatten | xau_once.py:59-63 | one label per column: a flat header keeps its labels, and each tuple becomes the `_`-join of its kept levels, in column order |
| Columns.KeptLevelsExactly | xau_once.py:62 | a level survives the join iff it is present and not the empty string |
| Columns.FlattenTwoLevels | xau_once.py:62 | a (price, ticker) tuple flattens to `price_ticker`, and, for a non-empty field, to the field alone when the ticker level is empty or `None` |
| Columns.JoinLevelsContains | xau_once.py:62 | every kept level occurs inside the joined label |
| Columns.FlattenedLevelResolves | xau_once.py:59-80 | once flattened, any column one of whose levels contains the key, ignoring case, lets `_pick` find some column |
| Columns.FirstFrom | xau_once.py:68-79 | one pass of `_pick`: the first column at or after the start that matches, or none when no later column matches |
| Columns.Resolve | xau_once.py:65-80 | the chosen column contains the key, ignoring case; no column is chosen (KeyError) iff no label contains the key |
| Columns.ResolvePrecedence | xau_once.py:65-80 | the result is the first exact match if any, else the first suffix match if any, else the first substring match |
| Columns.ResolveIgnoresCase | xau_once.py:66-78 | keys and labels that agree after lower-casing resolve to the same column |
| Columns.AdjCloseShadowsClose | xau_once.py:59-80 | with columns Datetime, Adj Close_GC=F, Close_GC=F, the key "close" picks Adj Close, because the substring pass sees it first |
| Columns.Pick | xau_once.py:65-80 | the three loops with early return compute exactly `Resolve` |
| Frames.PickEachFinds | xau_once.py:96-100 | the consecutive picks succeed iff every key is found, and then give each key's column |
| Frames.PickEachFirstMissing | xau_once.py:96-111 | when the picks fail, the KeyError names the first key that is not found, and every earlier key was found |
| Frames.TimeColumn | xau_once.py:121-126 | the time column is "Datetime" if present, else "Date", else the first column |
| Frames.Prepare | xau_once.py:93 | after `reset_index`, column 0 is the index under its name, followed by the flattened labels over the frame's own columns, with one row per index entry |
| Frames.ParseTimes | xau_once.py:122-126 | the time column raises iff some cell is a number or a string; otherwise each timestamp is its instant and each missing cell is NaT |
| Frames.Rows | xau_once.py:113-130 | one row per table row, holding that row's time and the `pd.to_numeric` coercion of the cells of the picked o/h/l/c columns, and of the volume column, or 0 when there is none |
| Frames.RowCompleteIff | xau_once.py:113-131 | the drop rule on cells: a row survives iff its time parsed and its four price cells, and its volume cell when there is a volume column, are numbers or timestamps |
| Frames.ZeroVolumeNeverDrops | xau_once.py:113-131 | without a volume column every row has volume 0, so volume never causes a row to be dropped |
| Frames.SurvivorsExactly | xau_once.py:131 | a bar survives `dropna` iff it comes from a row that has all six fields |
| Frames.SurvivorsAppend | xau_once.py:131 | dropping rows distributes over concatenation, so survivors keep their relative order |
| Frames.Survivors | xau_once.py:131 | `dropna` never adds rows: there are at most as many survivors as rows (which ones: `SurvivorsExactly`) |
| Frames.SurvivorsOfComplete | xau_once.py:131 | a frame with no missing value loses no row |
| Frames.Clean | xau_once.py:131-133 | the cleaned series has at most 220 bars |
| Frames.CleanIsLastSurvivors | xau_once.py:131-133 | `Clean` is the last min(220, n) survivors, in order |
| Frames.CleanBarIsTableRow | xau_once.py:113-133 | every bar of a cleaned series is one table row: its time cell is that timestamp, its four price cells are numeric, and the close is that row's close cell |
| BarSource.Normalize | xau_once.py:113-136 | normalisation fails iff the time column has a number or a string, and then with `BadTime`; otherwise the series is tagged with the symbol and holds the table's cleaned bars (at most 220) |
| BarSource.FromHistory | xau_once.py:101-136 | the history fallback succeeds iff history() gives a non-empty frame with all four price columns and a time column that parses, and then returns that frame's cleaned bars; a KeyError comes only from a non-empty history frame whose price picks fail on that key; an exception from history() is passed on, `None` or an empty frame gives "history empty", and a priced frame whose time column does not parse gives `BadTime` |
| BarSource.Attempt | xau_once.py:84-136 | a candidate succeeds iff the download yields a series, or the download is non-empty but lacks a price column and history() yields one; the series carries the symbol and the cleaned bars of the download when it was priced, else of history() |
| BarSource.HistoryOnlyOnMissingPrice | xau_once.py:96-111 | when the download frame has all four price columns, `history()` has no effect on the outcome |
| BarSource.MissingPriceFallsBack | xau_once.py:96-111 | a non-empty download lacking one of the four price columns gives exactly the outcome of the history() fallback |
| BarSource.DownloadBadTimeIsFinal | xau_once.py:113-136 | a non-empty download with all four price columns whose time column does not parse fails the candidate with `BadTime`, without trying history() |
| BarSource.DownloadFailureIsFinal | xau_once.py:86-91 | an exception, `None` or an empty frame from the download fails the candidate with that error, without trying history |
| BarSource.MissingColumnIsFirstAbsentKey | xau_once.py:101-111 | a KeyError escapes only from a non-empty history frame, and names the first of open/high/low/close it lacks |
| BarSource.FetchFrom | xau_once.py:83-142 | the `for sym in candidates` loop (`Fetch` is it with `Attempt`): a success is some later candidate's own result, and a failure is always the aggregate error |
| BarSource.FetchFirstSuccess | xau_once.py:83-136 | the result is the first succeeding candidate's series, untouched |
| BarSource.FetchAllFail | xau_once.py:138-142 | when every candidate fails, the raised error carries the last candidate's error, or none for an empty list |
| BarSource.FetchSucceedsIff | xau_once.py:82-142 | fetch_df returns iff some candidate succeeds |
| BarSource.FetchFailureCarriesLast | xau_once.py:138-142 | whenever fetch_df raises, its error reports the last candidate's error |
| BarSource.FetchTagged | xau_once.py:135 | the returned series is tagged with the symbol of the first candidate that succeeds |
| BarSource.FetchDf | xau_once.py:82-142 | the loop returns what the candidate loop specifies; on success the log holds exactly the earlier failures, and on failure one diagnostic per candidate with the last error raised |
| Indicators.Augment | xau_once.py:147-155 | a bar is kept iff every indicator is defined, and its row then carries the bar, the library's EMA, RSI, MACD, signal and ATR values, and histogram = macd - signal |
| Indicators.AddIndicators | xau_once.py:145-155 | add_indicators yields at most one row per bar (which rows: `AddIndicatorsInOrder`) |
| Indicators.AddIndicatorsInOrder | xau_once.py:145-155 | the rows of `AddIndicators` are exactly the bars whose indicators are all defined (a position is used iff it is defined), at strictly increasing positions, each its bar's augmented row |
| Indicators.AddIndicatorsKeepsDefined | xau_once.py:155 | every bar whose indicators are all defined appears in the output |
| Indicators.AddIndicatorsAllDefined | xau_once.py:155 | when every indicator is defined everywhere, no row is dropped |
| Signal.GenerateSignal | xau_once.py:157-165 | BUY iff the fast EMA crosses up, RSI >= 55, hist >= 0.02 and macd > signal; SELL iff it crosses down, RSI <= 45, hist <= -0.02 and macd < signal; WAIT otherwise |
| Signal.CrossesExclusive | xau_once.py:158-159 | an up-cross and a down-cross cannot both happen |
| Signal.NoCrossIsWait | xau_once.py:158-165 | without a cross the side is WAIT, whatever the filters say |
| Signal.CurrentTieIsWait | xau_once.py:158-165 | equal EMAs on the current bar give WAIT |
| Signal.PreviousTieAllowsBoth | xau_once.py:158-159 | equal EMAs on the previous bar admit a cross in either direction |
| Signal.HistogramDecidesMomentum | xau_once.py:153-162 | on augmented rows, macd > signal follows from hist >= 0.02, so the MACD condition adds nothing to the histogram filter |
| Signal.ScenarioBuy | xau_once.py:157-165 | an up-cross with RSI 60 and hist 0.3 is BUY |
| Signal.ScenarioSell | xau_once.py:157-165 | a down-cross with RSI 40 and hist -0.3 is SELL |
| Signal.ScenarioWeakRsi | xau_once.py:161-165 | an up-cross with a strong histogram but RSI 50 is WAIT |
| Signal.ScenarioNoCross | xau_once.py:158-165 | without a cross (fast above slow on both bars) the side is WAIT for any RSI and MACD |
| Freshness.IsFresh | xau_once.py:167-170 | fresh iff the bar's age is between 0 and 4 minutes inclusive; a bar in the future is stale |
| Freshness.FreshBoundaries | xau_once.py:170 | ages of exactly 0 and exactly 4 minutes are fresh, 1 ns in the future or past 4 minutes is not |
| Runner.Evaluate | xau_once.py:172-195 | raises iff fetch_df raised; returns silently iff fewer than two augmented rows; otherwise reports the last row's time and close, the stale flag and the side, and alerts iff fresh and not WAIT, with the last row |
| Runner.RunForFailsIff | xau_once.py:172-173 | `RunFor` (run_for) raises iff every candidate fails, and then with the last candidate's error |
| Runner.AlertIff | xau_once.py:174-195 | an alert is sent exactly when the fetch succeeded, there are two rows, the last is fresh, and the side is BUY or SELL |
| Runner.StaleIsReportedNotSent | xau_once.py:182-184 | a stale last bar is still reported, marked stale, and no alert is sent |
| Runner.AlertIsActionable | xau_once.py:176-195 | an alert is never WAIT, and names the symbol the series was fetched for |
| Runner.RunGroups | xau_once.py:197-202 | every group is run, in order, and one group raising does not stop the next |

## Left out

- `send_tg`, the Telegram HTTP call, its timeouts and error printing: I/O. The model returns the alert as a value instead of sending it.
- Loading `TG_TOKEN`/`TG_CHAT` and exiting when they are missing: process environment, outside the decision logic.
- `yf.download` and `Ticker.history` are not called. What each returns for a symbol is an input, and its parameters (interval, period, group_by) are not modelled.
- EMA, RSI, MACD and ATR arithmetic (the `ta` library) is a parameter mapping bars to optional values. A library output shorter than the series reads as NaN, as index alignment would give. The indicator periods are therefore not used.
- Report and alert text formatting (Bangkok time zone, `strftime`, `:.2f`/`:.4f` rounding) is left out. The report carries the raw instant and values.
- Freshness.IsFresh: it compares integer nanoseconds exactly. The source computes the age as a float number of minutes, and its rounding at the 4-minute boundary is not modelled.
- Strings.Lower: it folds ASCII letters only. Python's `str.lower` also folds non-ASCII letters.
- `reset_index` is modelled as prepending the index as a column named after the index. Its `ValueError` when that name already exists, and duplicate column labels, are not modelled.
- Frames.ParseTimes: numbers in the time column are treated as unparsable. Text cells that pandas would parse as dates are also treated as unparsable. `pd.to_datetime` would read a number as an epoch offset.
- `df.attrs` propagation through `add_indicators`: the series keeps the symbol it was fetched for. The fallback to `candidates[0]` is never taken, since a fetched series always has its symbol.
- BarSource.FetchDf: the method is stated for any per-candidate try and is proved equal to `FetchFrom`. `Fetch`, which `RunFor` uses, is the function `FetchFrom` with `Attempt`, so the `[fetch] ... failed` diagnostics the method collects do not reach the runner's outcome.
- Copies and index resets have no counterpart, since frames are values.
- Exceptions other than the modelled ones (for example a KeyError from unexpected frame shapes inside pandas) are not modelled.
