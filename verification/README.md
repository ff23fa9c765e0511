# Stocks exporter: ticker loading and the sampling cycle

This project is a Dafny model of the core of the stocks exporter
(`monitoring/stocks-exporter/app.py`). The exporter is a small Prometheus
exporter. It reads a list of ticker symbols and, once per refresh cycle,
samples every symbol. It publishes fourteen gauges per symbol: price, scrape
success, RSI(14), MACD line, signal and histogram, Bollinger %B, 1/5/20-day
returns, 20-day realised volatility, volume, 20-day average volume and
volume ratio.

The model has two modules.

- `Tickers` (`tickers.dfy`) models `load_tickers`.
  - Python's `str.strip`, ASCII `str.upper`, `str.replace(",", "\n")`,
    `str.splitlines`, `str.split(",")` and the slice `out[:MAX_TICKERS]` are
    written out as functions.
  - The ticker list is specified as `TickerList = Take(Dedupe(Candidates))`.
  - The imperative `LoadTickers` method is proved equal to that specification.
    Its two loops are the methods `FileSymbols` and `DedupeInOrder`.
- `Exporter` (`exporter.dfy`) models `synth`, `set_metrics` and the body of
  `fetch_loop`.
  - The mutable module state is a class `Exporter` with three fields:
    - `cache`: `last_price_cache`;
    - `gauges`: every labelled gauge series, keyed by (metric, symbol);
    - `requests`: a ghost log of the symbols the market-data provider was
      asked for. It exists only to state the properties.
  - Every method is proved against a pure specification on the value
    `ExporterState`:
    - `Step` is one symbol;
    - `CycleOf` is one pass over the ticker list;
    - `Run` is a sequence of refresh cycles.
  - Lemmas about those specification functions state what the exporter
    promises:
    - which path each mode takes;
    - what a failure leaves behind;
    - that the provider is never asked in demo-only mode;
    - that every symbol keeps a coherent set of series.

Inputs that the program gets from its environment are parameters of the
model:

- The ticker file's text is an `Option<string>`; `None` means the file does
  not exist.
- The settings are a `Config` value: TICKERS, MAX_TICKERS, DEMO_MODE,
  DEMO_ONLY and whether the `yfinance` import succeeded.
- The provider's answer for a symbol is a function `fetch: string -> Outcome`.
  An `Outcome` is either the computed indicator record or `Failed`, which
  stands for any exception on the live path.
- The random numbers one `synth` call draws are a `Draws` record. Its bounded
  draws satisfy `DrawsInRange`.

Prices and indicator values are Dafny `real`s.

Behaviours of the code worth stating:

- Failure without demo mode and without a cached price: the code still
  publishes `stock_scrape_success = 0` for the symbol (app.py:124). So a symbol
  can carry only its ok series. `CoherentAt` allows exactly that shape.
- The first synthetic price: the code multiplies the seed drawn from
  [100, 120) by `1 + step` before publishing (app.py:60-62). So the first
  published price is `seed * (1 + step)`, not the seed itself
  (`SyntheticWalk`).
- Demo-only mode in the failure handler: the test `DEMO or DEMO_ONLY` there
  (app.py:120) can only be reached with `DEMO_ONLY` false. The synthetic-only
  branch raises nothing, so only `DEMO` decides the fallback (`Step`).
- Negative MAX_TICKERS: `out[:MAX_TICKERS]` then drops symbols from the end of
  the list rather than capping it. `Take` models this slice exactly.

## Model

| member | source | states |
|---|---|---|
| Tickers.Strip | monitoring/stocks-exporter/app.py:31 | `str.strip()`: the result is an infix of the input, everything before and after it is white space, it has no white space at either end, and it is empty exactly when the input is all white space |
| Tickers.Upper | monitoring/stocks-exporter/app.py:31 | `str.upper()`: same length, each letter a-z becomes its capital, every other character is unchanged, and no lower-case letter is left |
| Tickers.CommasToNewlines | monitoring/stocks-exporter/app.py:30 | `replace(",", "\n")`: each comma becomes a newline, every other character is unchanged, and no comma is left |
| Tickers.SplitLinesFrom | monitoring/stocks-exporter/app.py:30 | `splitlines()`: no piece contains a line boundary, and an empty text gives no pieces |
| Tickers.SplitLinesKeepsText | monitoring/stocks-exporter/app.py:30 | the lines of `splitlines()` run together are exactly the text with its line-boundary characters removed |
| Tickers.SplitLinesCount | monitoring/stocks-exporter/app.py:30 | `splitlines()` gives one line per line boundary (`\r\n` counting once), plus one when text follows the last boundary |
| Tickers.SplitLinesUnified | monitoring/stocks-exporter/app.py:30 | `splitlines()` is exactly `split("\n")` of the text with every line boundary written as one `\n` (`\r\n` as a single one), less the empty last field when the text ends in a boundary, and no lines at all for the empty text |
| Tickers.SplitLinesBySplit | monitoring/stocks-exporter/app.py:30 | the same equation for the rest of the text once part of a line has been read |
| Tickers.SplitFrom | monitoring/stocks-exporter/app.py:34 | `split(",")`: at least one field, and no field contains the separator |
| Tickers.SplitJoin | monitoring/stocks-exporter/app.py:34 | joining the fields of `split(sep)` with `sep` gives back the original string |
| Tickers.SplitAppend | monitoring/stocks-exporter/app.py:34 | `split(sep)` of `a + sep + b` is the fields of `a` followed by the fields of `b` |
| Tickers.Normalize | monitoring/stocks-exporter/app.py:30-34 | each kept item is non-empty, stripped and upper-cased, and there are never more items than pieces |
| Tickers.NormalizeMembers | monitoring/stocks-exporter/app.py:30-34 | every piece that is not all white space contributes its stripped, upper-cased form, and every item is the stripped, upper-cased form of some piece |
| Tickers.NormalizeConcat | monitoring/stocks-exporter/app.py:30-34 | the items of two runs of pieces are the items of the first followed by those of the second, so symbols keep the order of their pieces |
| Tickers.NormalizeOne | monitoring/stocks-exporter/app.py:31-32 | a single piece yields its stripped, upper-cased form, or nothing when stripping empties it |
| Tickers.NormalizeLines | monitoring/stocks-exporter/app.py:30-32 | the pieces of `splitlines()` and of `split("\n")` on the unified text yield the same list of symbols |
| Tickers.FileFields | monitoring/stocks-exporter/app.py:29-32 | the file's fields contain no comma or line boundary and together make up the whole text without its separators; the file's list of symbols is, in order, what its text split at commas and line boundaries (`\r\n` once) yields piece by piece |
| Tickers.EnvFields | monitoring/stocks-exporter/app.py:34 | the TICKERS fields join back to the string with commas; the string yields just the stripped, upper-cased, non-empty forms of its fields, and the symbols before any comma come before those after it |
| Tickers.Candidates | monitoring/stocks-exporter/app.py:27-34 | the file's items when the file exists and yields at least one; otherwise the items of the TICKERS string |
| Tickers.FileWins | monitoring/stocks-exporter/app.py:33 | when the file yields a symbol, the TICKERS string has no influence on the list |
| Tickers.EnvFallback | monitoring/stocks-exporter/app.py:33-34 | with no file, or a file that yields nothing, the list is built from the TICKERS string alone |
| Tickers.Dedupe | monitoring/stocks-exporter/app.py:35-38 | no duplicates, exactly the same set of symbols as the input, and never longer |
| Tickers.DedupeKeepsFirstOccurrenceOrder | monitoring/stocks-exporter/app.py:36-38 | symbols appear in the order of their first occurrence in the input |
| Tickers.DedupeUnique | monitoring/stocks-exporter/app.py:35-38 | the deduplicated list is the only list that is duplicate-free, has the input's symbols, and keeps first-occurrence order |
| Tickers.Take | monitoring/stocks-exporter/app.py:39 | Python's `s[:n]`: always a prefix, of length `min(n, len)` for `n >= 0`, and `max(len + n, 0)` for negative `n` |
| Tickers.TickerListProperties | monitoring/stocks-exporter/app.py:25-39 | the returned list is duplicate-free, and each entry is a non-empty stripped upper-case symbol. It is a prefix of the deduplicated list in first-occurrence order. It has at most MAX_TICKERS entries when MAX_TICKERS >= 0, and is the whole deduplicated list when MAX_TICKERS is at least its length |
| Tickers.FileSymbols | monitoring/stocks-exporter/app.py:29-32 | the loop over the file's lines collects exactly the specified file items |
| Tickers.DedupeInOrder | monitoring/stocks-exporter/app.py:35-38 | the loop with the `seen` set computes exactly the deduplicated list, which is duplicate-free and has the input's symbols |
| Tickers.LoadTickers | monitoring/stocks-exporter/app.py:25-39 | load_tickers returns exactly the specified ticker list, which has no duplicates, only symbols, and at most MAX_TICKERS entries |
| Exporter.Publish | monitoring/stocks-exporter/app.py:70-78 | `set_metrics` touches no other symbol's series and removes no series |
| Exporter.PublishShowsRecord | monitoring/stocks-exporter/app.py:70-78 | after `set_metrics`, each of the fourteen gauges of the symbol exists and shows the record's field for it; the ok gauge shows 1 or 0 by the flag |
| Exporter.SyntheticWalk | monitoring/stocks-exporter/app.py:59-63 | a cached symbol's synthetic price is the cached price times `1 + step`; an uncached one walks from a seed in [100, 120) |
| Exporter.Step | monitoring/stocks-exporter/app.py:84-124 | one symbol's step touches no other symbol and removes nothing. The provider is asked for the symbol exactly in live mode. Afterwards the symbol has an ok flag, which is 1 exactly when the live path succeeded |
| Exporter.StepSyntheticOnly | monitoring/stocks-exporter/app.py:85-86 | in demo-only mode or without a provider: no request is made; a synthetic record is cached and published with ok = 0 |
| Exporter.StepLiveSuccess | monitoring/stocks-exporter/app.py:89-117 | live success: the fetched price is cached, and every gauge shows the fetched record with ok = 1 |
| Exporter.StepFailureDemo | monitoring/stocks-exporter/app.py:118-121 | live failure in demo mode: a synthetic record is cached and published with ok = 0 |
| Exporter.StepFailureHoldsPrice | monitoring/stocks-exporter/app.py:118-124 | live failure without demo mode: the cache and all indicator gauges are kept. The price gauge shows the cached price if there is one. The ok flag becomes 0 |
| Exporter.StepKeepsCoherent | monitoring/stocks-exporter/app.py:70-124 | every step keeps each symbol's series coherent: price shown exactly when cached and equal to the cache, ok present whenever anything is, and either all fourteen series or none besides ok |
| Exporter.StepFailureFrozen | monitoring/stocks-exporter/app.py:122-124 | a failure without demo mode changes nothing of the symbol but its ok flag |
| Exporter.CycleKeepsCoherent | monitoring/stocks-exporter/app.py:83-125 | a whole pass over the tickers keeps the state coherent |
| Exporter.CycleRequests | monitoring/stocks-exporter/app.py:83-90 | a pass asks the provider for each listed symbol once, in list order, in live mode, and never otherwise |
| Exporter.CycleLeavesUnlisted | monitoring/stocks-exporter/app.py:82-83 | a symbol not in the list keeps its cached price and every published series |
| Exporter.CycleOkFlag | monitoring/stocks-exporter/app.py:83-124 | after a pass each listed symbol has an ok flag, which is 1 exactly when live data is enabled and the provider succeeded for it |
| Exporter.CycleLiveRecord | monitoring/stocks-exporter/app.py:113-117 | after a pass in which the provider succeeded for a listed symbol, its cache entry and every gauge hold the fetched record |
| Exporter.CycleFailureFrozen | monitoring/stocks-exporter/app.py:118-124 | in live mode without demo mode, a pass in which a symbol fails leaves everything of it but the ok flag unchanged |
| Exporter.RunKeepsCoherent | monitoring/stocks-exporter/app.py:80-126 | any number of refresh cycles keeps the state coherent |
| Exporter.RunNeverAsksWhenSynthetic | monitoring/stocks-exporter/app.py:80-86 | in demo-only mode or without a provider, no cycle ever makes a provider request |
| Exporter.PersistentFailurePinsPrice | monitoring/stocks-exporter/app.py:80-124 | when the provider keeps failing for a symbol without demo mode, its cached price, price gauge and indicator gauges never change, and its ok flag is 0 after every cycle that lists it |
| Exporter.Exporter.constructor | monitoring/stocks-exporter/app.py:41-57 | the exporter starts with no cached price, no series and no requests, which is coherent |
| Exporter.Exporter.Synth | monitoring/stocks-exporter/app.py:59-68 | `synth` returns the specified record. Its price is the cached price, or `100 + 20 * unit`, walked by `1 + step`. It stores that price in the cache and changes nothing else |
| Exporter.Exporter.SetMetrics | monitoring/stocks-exporter/app.py:70-78 | the fourteen writes leave every gauge of the symbol showing the record, leave other symbols' series untouched, and leave the cache alone |
| Exporter.Exporter.SampleSymbol | monitoring/stocks-exporter/app.py:84-124 | one iteration of the per-symbol body, with its try/except, updates the state exactly as `Step` specifies and keeps it coherent |
| Exporter.Exporter.Cycle | monitoring/stocks-exporter/app.py:83-125 | the `for sym in tickers` loop updates the state exactly as `CycleOf` specifies and keeps it coherent |
| Exporter.Exporter.Refresh | monitoring/stocks-exporter/app.py:81-125 | one iteration of the outer loop returns the specified ticker list and updates the state exactly as one round of `Run` |

## Left out

- Indicator arithmetic (app.py:93-112) is left out. This covers the RSI, EMA/MACD, Bollinger, percentage-change, log-return volatility and rolling-volume computations over pandas series. The record they produce is part of the provider's `Outcome`, and any exception they raise is `Failed`.
- Floating point is left out. Prices and indicators are exact reals, so `float` rounding, NaN and infinity are not modelled.
- The market-data request (`yf.Ticker(...).history(...)`) is a parameter `fetch`. The network, time-outs and the exact error that leads to the except branch are not modelled.
- Random distributions are left out. `random.random`, `gauss`, `uniform` and `randint` are the `Draws` parameter; only the ranges of the bounded draws are assumed (`DrawsInRange`). The default argument of `last_price_cache.get` draws a number even for a cached symbol; this affects only which draws later calls see, which the model does not track.
- File reading is left out. The file is given as its text, or `None` when it does not exist. Byte decoding with `errors="ignore"` and an exception from an unreadable file are not modelled.
- Tickers.Upper: changes only the ASCII letters `a`-`z`; Python's `str.upper` also maps other Unicode letters (and a few characters to several).
- Reading the environment variables and parsing them with `int`, `float` and `lower()` (app.py:17-23) is left out; the parsed values are the `Config` parameter. A malformed MAX_TICKERS, which makes `int()` raise at start-up, is not modelled.
- The endless `while True` loop, `time.sleep` between symbols and cycles, the background thread and the HTTP handler with the Prometheus text exposition (app.py:125-139) are left out. `Run` models any finite number of cycles.
- Concurrency is left out. The HTTP server can read the gauges while a `set_metrics` call is half done; the model treats each step as atomic.
