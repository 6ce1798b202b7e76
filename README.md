# bbgph: Bloomberg daily price feed, cleaning and period truncation

`bbgph` fetches up to five years of daily prices for a ticker, cleans the parsed table into
the columns Date, Open, High, Low, Close, and truncates it to a requested period. This Dafny
project models the logic in that path:

- **URL assembly** (`FeedUrl`). The ticker goes into the template's `{}` field verbatim
  (no escaping). The time period and the output fields are then appended. `Format` models
  `str.format` for a template with one empty field.
- **Column cleaning** (`Normalise`). A parsed row has nine positional cells. Cells 5 to 8 are
  dropped. The other five are named Date, Close, Open, High, Low in feed order. They are then
  selected in the order Date, Open, High, Low, Close. Rows with a null among those five are
  dropped.
- **Period truncation** (`Period`). A given start earlier than the earliest date is an error.
  Otherwise rows before the start are removed. Rows after the end are removed in every case.
  Nothing checks that start precedes end.
- **The entry point** (`Feed`). This chains the three steps. A function parameter `fetch`
  stands for the network request and the CSV parse.

Types (`Series`): `Date` is an integer on a fixed time line (the concrete lemmas use day
numbers since 1970-01-01), and only its order is used. `Price` is `real`, but it is only carried
along, never computed with. A cleaned record is `Record<Date, Price>`, whose constructor fixes
the five columns and their order. A row before null-dropping is
`Record<Option<Date>, Option<Price>>`. The source's `IndexError` becomes the
`OutOfRange(start, earliest)` error of a `Result`.

Two edge cases of the truncation:

- A start before the earliest date is an error, and a later start drops the earliest row. So
  the whole series comes back only when the start is absent or equal to the earliest date,
  and every date is at or before the end (`Period.AdjustPeriodWhole`, both directions).
- For an empty series, pandas' minimum is NaT and `start < NaT` is false. So no error is raised
  and the result is empty. `MinDate` returns `None` here, and `AdjustPeriod` does not fail.

## Model

| member | source | states |
|---|---|---|
| `FeedUrl.FindField` | bbgph.py:16 | the position found holds `{}` and no earlier position does; when none is found, `{}` occurs nowhere |
| `FeedUrl.TemplateField` | bbgph.py:4 | the URL template's only field sits right after the fixed head, with nothing after it |
| `FeedUrl.Format` | bbgph.py:16 | `str.format` with one empty field: the text before the first `{}` is kept, the argument follows verbatim, then the text after the field; a template without a field is unchanged |
| `FeedUrl.StockUrl` | bbgph.py:16-18 | the URL is the fixed head, the ticker verbatim, `&TimePeriod=5Y`, then the five output fields |
| `FeedUrl.TickerOfStockUrl` | bbgph.py:16-18 | reading the ticker back out of its URL gives the ticker unchanged (nothing is escaped or lost) |
| `FeedUrl.StockUrlOfTicker` | bbgph.py:16-18 | any string a ticker can be read from is that ticker's URL, so different tickers get different URLs |
| `Normalise.DropAndLabel` | bbgph.py:24-25 | cells 5 to 8 are dropped and the column named `FEED_COLUMNS[k]` (Date, Close, Open, High, Low) holds raw cell `k` |
| `Normalise.Reorder` | bbgph.py:26 | selection by name: position `k` of the selected row holds the column named `SERIES_COLUMNS[k]` (Date, Open, High, Low, Close) |
| `Normalise.SelectColumns` | bbgph.py:24-26 | row `i` of the selected table has raw row `i`'s date, then its cells 2, 3, 4 and 1 as Open, High, Low and Close |
| `Normalise.DropNa` | bbgph.py:26 | the result is no longer than the table, and a record is in it exactly when the table holds that row with all five cells present |
| `Normalise.DropNaAppend` | bbgph.py:26 | dropping nulls from two tables joined equals joining the two results |
| `Normalise.DropNaSubsequence` | bbgph.py:26 | the surviving rows keep their order and their values |
| `Normalise.DropNaKeepsAll` | bbgph.py:26 | nothing is dropped exactly when no row holds a null |
| `Normalise.CleanSingleRow` | bbgph.py:24-26 | raw row `[d, c, o, h, l, x5..x8]` becomes `Date=d, Open=o, High=h, Low=l, Close=c`; it is removed when any of the five is null |
| `Normalise.CleanAppend` | bbgph.py:24-26 | cleaning is row by row: cleaning two parts joined equals joining the cleaned parts; with `CleanSingleRow` this fixes the whole result |
| `Normalise.Clean` | bbgph.py:24-26 | the cleaned series is no longer than the raw table, and a record is in it exactly when some raw row carries its five values in feed order; `CleanSingleRow` and `CleanAppend` fix the result completely |
| `Normalise.CleanIgnoresExtras` | bbgph.py:24 | cells 5 to 8 never influence the result |
| `Normalise.CleanKeepsAll` | bbgph.py:26 | the cleaned series is as long as the raw table exactly when none of the five kept cells is null in any row |
| `Normalise.SampleRow` | bbgph.py:24-26 | an example row: the row `2020-01-01, 100.5, 99.0, 101.0, 98.5, X, Y, Z, W` becomes `Date=2020-01-01, Open=99.0, High=101.0, Low=98.5, Close=100.5` |
| `Period.MinDate` | bbgph.py:42 | the minimum is absent exactly for an empty series; otherwise it is one of the dates and no date is smaller |
| `Period.Select` | bbgph.py:45-48 | the mask selection holds exactly the rows whose date the bound admits, and is no longer than the input |
| `Period.SelectCount` | bbgph.py:45-48 | the mask selection keeps every copy of a row whose date the bound admits and no copy of any other row |
| `Period.SelectAppend` | bbgph.py:45-48 | selection distributes over joining two series |
| `Period.SelectSubsequence` | bbgph.py:45-48 | the selected rows keep their order and their values |
| `Period.AdjustPeriod` | bbgph.py:41-49 | fails exactly when a start is given and precedes every date of a non-empty series, reporting that start and the earliest date; otherwise a row is kept exactly when it lies on or after the given start and on or before the end, with as many copies as the series has of it |
| `Period.AdjustPeriodSubsequence` | bbgph.py:41-49 | an accepted result is an order-preserving subsequence of the series, with row values unchanged |
| `Period.AdjustPeriodWhole` | bbgph.py:41-49 | the series comes back whole exactly when every date is at or before the end and a given start equals the earliest date |
| `Period.AdjustPeriodStartAfterEnd` | bbgph.py:41-49 | a start at or after the earliest date but after the end gives an empty series, not an error |
| `Period.AdjustPeriodMonotoneInEnd` | bbgph.py:48 | moving the end earlier cannot change acceptance and only removes rows: the result becomes a subsequence, no longer than before |
| `Period.AdjustPeriodAscendingSlice` | bbgph.py:41-49 | on an ascending series the result is still ascending, and it is one contiguous slice of the input |
| `Series.AscendingSubsequence` | bbgph.py:45-48 | any subsequence of an ascending series is ascending, so the series is passed through and never re-sorted |
| `Period.TenDayWindow` | bbgph.py:41-49 | on ten daily rows from 2020-01-01, start 2020-01-03 and end 2020-01-05 keep exactly the rows of days 3 to 5 |
| `Period.SixYearsBack` | bbgph.py:42-43 | a start on 2014-01-01, six calendar years before the first row, is rejected |
| `Feed.GetStockFeed` | bbgph.py:8-30 | the feed is requested at the ticker's URL; the call fails exactly when a start is given and precedes every row of the cleaned, non-empty response; otherwise a record is returned exactly when a response row carries its five values in feed order and its date is in the period, with as many copies as the cleaned response has of it |
| `Feed.GetStockFeedOrder` | bbgph.py:16-28 | the returned records keep the order of the cleaned response, with their values unchanged |

## Left out

- A failed HTTP request and a response that cannot be parsed (the exception `pd.read_csv` raises at bbgph.py:22) are not modelled: the request and the quote-delimited CSV parse are network I/O and a library parser, and the function parameter `fetch` always gives parsed rows for a URL. `OutOfRange` is therefore the only error `GetStockFeed` can return.
- Date parsing with `pd.to_datetime` (bbgph.py:27) uses a library-defined format. The date cell is taken as an already-ordered `Date`.
- A response with any number of columns other than nine is not modelled. The positional drop fails with fewer than nine columns, and the rename fails with more. The `RawRow` type always has nine cells.
- The drop works on column labels. The model assumes the labels at positions 5 to 8 are distinct from the others, which `read_csv` ensures by renaming duplicate headers.
- Prices are floating point, with NaN as null. The model wraps each price in `Option` and does no arithmetic on prices, because the source does none.
- The `reset_index` calls (bbgph.py:46, 49) only renumber the row index. A sequence is already numbered from 0.
- The default `end=dt.datetime.today()` (bbgph.py:8) reads the clock once, when the function is defined. `end` is an explicit parameter in the model.
- The reminder about indicators (bbgph.py:20) describes something that is not implemented.
- `Format` covers only the empty field `{}`. The template has exactly one, so the rest of `str.format` syntax is not modelled. A ticker that is not a string, which Python converts with `str`, is not modelled either.
- The in-place DataFrame updates (bbgph.py:24, 25, 27 and 46, 49) are modelled as functions returning new values. The frame is local to the call, so no aliasing is lost.
