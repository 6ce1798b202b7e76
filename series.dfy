/** The price series: one record per trading day with the columns Date, Open, High, Low, Close. */
module Series {

  import opened Wrappers
  import opened Subsequences

  /**
   * A point on the feed's time line, counted in a fixed unit from a fixed origin
   * (the concrete lemmas use whole days since 1970-01-01). Only its order is used.
   */
  type Date = int

  /** A price as the parser delivers it. Nothing computes with prices; they are only carried along. */
  type Price = real

  /** The five columns of the series, always in the order Date, Open, High, Low, Close. */
  datatype Record<D, P> = Record(date: D, open: P, high: P, low: P, close: P)

  /** A cleaned row: no cell is null. */
  type Ohlc = Record<Date, Price>

  /** A row after column selection but before nulls are dropped. */
  type NullableRecord = Record<Option<Date>, Option<Price>>

  /** Dates strictly ascend, so there are no duplicate dates either. */
  ghost predicate Ascending(s: seq<Ohlc>)
  {
    forall i, j :: 0 <= i < j < |s| ==> s[i].date < s[j].date
  }

  /** Taking a subsequence keeps the dates ascending: the series is passed through, never re-sorted. */
  lemma {:induction false} AscendingSubsequence(a: seq<Ohlc>, b: seq<Ohlc>)
    requires Ascending(b) && IsSubsequence(a, b)
    ensures Ascending(a)
    decreases |b|
  {
    if b != [] {
      if a != [] && a[0] == b[0] && IsSubsequence(a[1..], b[1..]) {
        AscendingSubsequence(a[1..], b[1..]);
        SubsequenceMembers(a[1..], b[1..]);
        forall j | 0 < j < |a|
          ensures a[0].date < a[j].date
        {
          assert a[j] == a[1..][j - 1] && a[j] in a[1..];
          assert a[j] in b[1..];
          var k :| 0 <= k < |b[1..]| && b[1..][k] == a[j];
          assert b[k + 1] == a[j];
        }
      } else {
        AscendingSubsequence(a, b[1..]);
      }
    }
  }
}
