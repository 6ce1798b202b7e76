/**
 * The entry point: build the URL for a ticker, take the rows the feed returns for it, clean
 * the columns and truncate the series to the requested period.
 */
module Feed {

  import opened Wrappers
  import opened Series
  import opened Subsequences
  import opened FeedUrl
  import opened Normalise
  import opened Period

  /**
   * The daily OHLC series of `ticker`. `fetch` stands for the HTTP request and the
   * quote-delimited parse: the rows the remote feed answers for a URL. The request fails
   * exactly when a start is given and precedes every row of the cleaned, non-empty response;
   * otherwise a record is returned exactly when a row of the response carries its five values
   * in feed order and its date lies in the period, as many times as the cleaned response holds it.
   */
  function GetStockFeed(ticker: string, fetch: string -> seq<RawRow>, start: Option<Date>, end: Date)
    : (r: Result<seq<Ohlc>, OutOfRange>)
    ensures var series := Clean(fetch(URL_HEAD + ticker + URL_TAIL));
      r.Err? <==> start.Some? && series != [] && forall i :: 0 <= i < |series| ==> start.value < series[i].date
    ensures var raw := fetch(URL_HEAD + ticker + URL_TAIL);
      r.Ok? ==> forall x :: x in r.value <==>
        (exists row :: row in raw && row.cell0 == Some(x.date) && row.cell1 == Some(x.close)
          && row.cell2 == Some(x.open) && row.cell3 == Some(x.high) && row.cell4 == Some(x.low))
        && (start.Some? ==> start.value <= x.date) && x.date <= end
    ensures var series := Clean(fetch(URL_HEAD + ticker + URL_TAIL));
      r.Ok? ==> forall x ::
        multiset(r.value)[x] == if (start.Some? ==> start.value <= x.date) && x.date <= end then multiset(series)[x] else 0
  {
    var url := StockUrl(ticker);
    AdjustPeriod(Clean(fetch(url)), start, end)
  }

  /** The records keep the order of the cleaned response, with their values unchanged. */
  lemma GetStockFeedOrder(ticker: string, fetch: string -> seq<RawRow>, start: Option<Date>, end: Date)
    ensures var r := GetStockFeed(ticker, fetch, start, end);
      r.Ok? ==> IsSubsequence(r.value, Clean(fetch(URL_HEAD + ticker + URL_TAIL)))
  {
    AdjustPeriodSubsequence(Clean(fetch(StockUrl(ticker))), start, end);
  }
}
