/**
 * Truncation of a price series to a requested period. A given start date earlier than the
 * earliest date of the series is an error; otherwise rows before the start are removed. Rows
 * after the end date are removed in every case. Nothing checks that start precedes end.
 */
module Period {

  import opened Wrappers
  import opened Series
  import opened Subsequences

  /** The out-of-range failure: the requested start precedes the earliest available date. */
  datatype OutOfRange = OutOfRange(start: Date, earliest: Date)

  /**
   * The minimum of the Date column. An empty column has no minimum (pandas' NaT, against
   * which every comparison is false).
   */
  function MinDate(s: seq<Ohlc>): (m: Option<Date>)
    ensures m.None? <==> s == []
    ensures m.Some? ==> exists i :: 0 <= i < |s| && s[i].date == m.value
    ensures m.Some? ==> forall i :: 0 <= i < |s| ==> m.value <= s[i].date
  {
    if s == [] then None
    else match MinDate(s[1..])
      case None => Some(s[0].date)
      case Some(m) => Some(if s[0].date <= m then s[0].date else m)
  }

  /** The comparison of a boolean mask on the Date column. */
  datatype Bound = AtLeast(lo: Date) | AtMost(hi: Date)

  predicate Admits(b: Bound, d: Date)
  {
    match b
    case AtLeast(lo) => lo <= d
    case AtMost(hi) => d <= hi
  }

  /**
   * Boolean-mask selection `feed[feed['Date'] >= lo]` or `feed[feed['Date'] <= hi]`:
   * exactly the rows whose date the bound admits.
   */
  function Select(s: seq<Ohlc>, b: Bound): (r: seq<Ohlc>)
    ensures |r| <= |s|
    ensures forall x :: x in r <==> x in s && Admits(b, x.date)
  {
    if s == [] then []
    else if Admits(b, s[0].date) then [s[0]] + Select(s[1..], b)
    else Select(s[1..], b)
  }

  /**
   * The period adjustment. It fails exactly when a start is given and lies before every date
   * of a non-empty series; otherwise the result holds exactly the rows of the series that
   * lie on or after the start (when given) and on or before the end, each as many times as
   * the series holds it.
   */
  function AdjustPeriod(feed: seq<Ohlc>, start: Option<Date>, end: Date): (r: Result<seq<Ohlc>, OutOfRange>)
    ensures r.Err? <==> start.Some? && feed != [] && forall i :: 0 <= i < |feed| ==> start.value < feed[i].date
    ensures r.Err? ==>
      && r.error.start == start.value
      && (exists i :: 0 <= i < |feed| && feed[i].date == r.error.earliest)
      && forall i :: 0 <= i < |feed| ==> r.error.earliest <= feed[i].date
    ensures r.Ok? ==> forall x :: x in r.value <==>
      x in feed && (start.Some? ==> start.value <= x.date) && x.date <= end
    ensures r.Ok? ==> forall x ::
      multiset(r.value)[x] == if (start.Some? ==> start.value <= x.date) && x.date <= end then multiset(feed)[x] else 0
  {
    if start.Some? && MinDate(feed).Some? && start.value < MinDate(feed).value then
      Err(OutOfRange(start.value, MinDate(feed).value))
    else
      var kept := if start.Some? then Select(feed, AtLeast(start.value)) else feed;
      SelectCount(kept, AtMost(end));
      if start.Some? then
        SelectCount(feed, AtLeast(start.value));
        Ok(Select(kept, AtMost(end)))
      else
        Ok(Select(kept, AtMost(end)))
  }

  /** Every copy of an admitted row is kept and no copy of any other row. */
  lemma {:induction false} SelectCount(s: seq<Ohlc>, b: Bound)
    ensures forall x :: multiset(Select(s, b))[x] == if Admits(b, x.date) then multiset(s)[x] else 0
    decreases |s|
  {
    if s != [] {
      SelectCount(s[1..], b);
      assert s == [s[0]] + s[1..];
      assert multiset(s) == multiset{s[0]} + multiset(s[1..]);
      if Admits(b, s[0].date) {
        assert multiset(Select(s, b)) == multiset{s[0]} + multiset(Select(s[1..], b));
      }
    }
  }

  /** Selection distributes over concatenation. */
  lemma {:induction false} SelectAppend(a: seq<Ohlc>, c: seq<Ohlc>, b: Bound)
    ensures Select(a + c, b) == Select(a, b) + Select(c, b)
    decreases |a|
  {
    if a != [] {
      assert (a + c)[1..] == a[1..] + c;
      SelectAppend(a[1..], c, b);
    } else {
      assert a + c == c;
    }
  }

  /** Selection keeps the admitted rows in order with their values unchanged. */
  lemma {:induction false} SelectSubsequence(s: seq<Ohlc>, b: Bound)
    ensures IsSubsequence(Select(s, b), s)
    decreases |s|
  {
    if s != [] {
      SelectSubsequence(s[1..], b);
      if Admits(b, s[0].date) {
        assert ([s[0]] + Select(s[1..], b))[1..] == Select(s[1..], b);
      }
    }
  }

  /** A bound that admits every row selects the whole series. */
  lemma {:induction false} SelectAll(s: seq<Ohlc>, b: Bound)
    requires forall i :: 0 <= i < |s| ==> Admits(b, s[i].date)
    ensures Select(s, b) == s
    decreases |s|
  {
    if s != [] {
      SelectAll(s[1..], b);
    }
  }

  /** A bound that admits no row selects nothing. */
  lemma {:induction false} SelectNone(s: seq<Ohlc>, b: Bound)
    requires forall i :: 0 <= i < |s| ==> !Admits(b, s[i].date)
    ensures Select(s, b) == []
    decreases |s|
  {
    if s != [] {
      SelectNone(s[1..], b);
    }
  }

  /** Cutting at `hi` after cutting at a later `hi'` is cutting at `hi`. */
  lemma {:induction false} SelectNarrow(s: seq<Ohlc>, hi: Date, hi': Date)
    requires hi <= hi'
    ensures Select(Select(s, AtMost(hi')), AtMost(hi)) == Select(s, AtMost(hi))
    decreases |s|
  {
    if s != [] {
      SelectNarrow(s[1..], hi, hi');
      if s[0].date <= hi' {
        assert Select(s, AtMost(hi')) == [s[0]] + Select(s[1..], AtMost(hi'));
      }
    }
  }

  /** On an ascending series, the rows on or after `lo` are a suffix. */
  lemma {:induction false} AscendingAtLeastIsSuffix(s: seq<Ohlc>, lo: Date) returns (k: nat)
    requires Ascending(s)
    ensures k <= |s| && Select(s, AtLeast(lo)) == s[k..]
    decreases |s|
  {
    if s == [] {
      k := 0;
    } else if lo <= s[0].date {
      SelectAll(s, AtLeast(lo));
      k := 0;
    } else {
      var k' := AscendingAtLeastIsSuffix(s[1..], lo);
      k := k' + 1;
    }
  }

  /** On an ascending series, the rows on or before `hi` are a prefix. */
  lemma {:induction false} AscendingAtMostIsPrefix(s: seq<Ohlc>, hi: Date) returns (k: nat)
    requires Ascending(s)
    ensures k <= |s| && Select(s, AtMost(hi)) == s[..k]
    decreases |s|
  {
    if s == [] {
      k := 0;
    } else if hi < s[0].date {
      SelectNone(s, AtMost(hi));
      k := 0;
    } else {
      var k' := AscendingAtMostIsPrefix(s[1..], hi);
      k := k' + 1;
      assert s[..k] == [s[0]] + s[1..][..k'];
    }
  }

  /** An accepted truncation is an order-preserving subsequence of the series, values unchanged. */
  lemma AdjustPeriodSubsequence(feed: seq<Ohlc>, start: Option<Date>, end: Date)
    ensures AdjustPeriod(feed, start, end).Ok? ==> IsSubsequence(AdjustPeriod(feed, start, end).value, feed)
  {
    if AdjustPeriod(feed, start, end).Ok? {
      var kept := if start.Some? then Select(feed, AtLeast(start.value)) else feed;
      SelectSubsequence(kept, AtMost(end));
      if start.Some? {
        SelectSubsequence(feed, AtLeast(start.value));
        SubsequenceTransitive(Select(kept, AtMost(end)), kept, feed);
      }
    }
  }

  /**
   * The series comes back whole exactly when every row lies on or before the end and a given
   * start is the earliest date (any earlier start is an error, any later one drops rows).
   */
  lemma AdjustPeriodWhole(feed: seq<Ohlc>, start: Option<Date>, end: Date)
    ensures AdjustPeriod(feed, start, end) == Ok(feed) <==>
      (forall i :: 0 <= i < |feed| ==> feed[i].date <= end)
      && (start.Some? && feed != [] ==> start.value == MinDate(feed).value)
  {
    if (forall i :: 0 <= i < |feed| ==> feed[i].date <= end)
      && (start.Some? && feed != [] ==> start.value == MinDate(feed).value) {
      if start.Some? {
        SelectAll(feed, AtLeast(start.value));
      }
      SelectAll(feed, AtMost(end));
    }
    if AdjustPeriod(feed, start, end) == Ok(feed) {
      assert forall i :: 0 <= i < |feed| ==> feed[i] in feed;
      if start.Some? && feed != [] {
        var i :| 0 <= i < |feed| && feed[i].date == MinDate(feed).value;
        assert feed[i] in feed;
      }
    }
  }

  /** A start on or after the earliest date but after the end yields an empty series, not an error. */
  lemma AdjustPeriodStartAfterEnd(feed: seq<Ohlc>, start: Date, end: Date)
    requires end < start
    requires feed != [] ==> MinDate(feed).value <= start
    ensures AdjustPeriod(feed, Some(start), end) == Ok([])
  {
    var kept := Select(feed, AtLeast(start));
    assert forall i :: 0 <= i < |kept| ==> kept[i] in kept;
    SelectNone(kept, AtMost(end));
  }

  /** Moving the end earlier can only remove rows: the shorter result is a subsequence of the longer. */
  lemma AdjustPeriodMonotoneInEnd(feed: seq<Ohlc>, start: Option<Date>, end: Date, end': Date)
    requires end <= end'
    ensures AdjustPeriod(feed, start, end).Ok? <==> AdjustPeriod(feed, start, end').Ok?
    ensures AdjustPeriod(feed, start, end).Ok? ==>
      IsSubsequence(AdjustPeriod(feed, start, end).value, AdjustPeriod(feed, start, end').value)
      && |AdjustPeriod(feed, start, end).value| <= |AdjustPeriod(feed, start, end').value|
  {
    if AdjustPeriod(feed, start, end).Ok? {
      var kept := if start.Some? then Select(feed, AtLeast(start.value)) else feed;
      SelectNarrow(kept, end, end');
      SelectSubsequence(Select(kept, AtMost(end')), AtMost(end));
      SubsequenceMembers(AdjustPeriod(feed, start, end).value, AdjustPeriod(feed, start, end').value);
    }
  }

  lemma AscendingSuffix(s: seq<Ohlc>, i: nat)
    requires Ascending(s) && i <= |s|
    ensures Ascending(s[i..])
  {
    forall a, b | 0 <= a < b < |s| - i
      ensures s[i..][a].date < s[i..][b].date
    {
      assert s[i..][a] == s[i + a] && s[i..][b] == s[i + b];
    }
  }

  /** On an ascending series the rows between `lo` (when given) and `hi` form one slice. */
  lemma AscendingWindowIsSlice(s: seq<Ohlc>, lo: Option<Date>, hi: Date) returns (i: nat, j: nat)
    requires Ascending(s)
    ensures i <= j <= |s|
    ensures Select(if lo.Some? then Select(s, AtLeast(lo.value)) else s, AtMost(hi)) == s[i..j]
  {
    var kept := if lo.Some? then Select(s, AtLeast(lo.value)) else s;
    if lo.Some? {
      i := AscendingAtLeastIsSuffix(s, lo.value);
    } else {
      i := 0;
    }
    var rest := s[i..];
    assert kept == rest;
    AscendingSuffix(s, i);
    var m := AscendingAtMostIsPrefix(rest, hi);
    j := i + m;
    assert rest[..m] == s[i..j];
  }

  /** An ascending series stays ascending, and what is kept is one contiguous slice of it. */
  lemma AdjustPeriodAscendingSlice(feed: seq<Ohlc>, start: Option<Date>, end: Date)
    requires Ascending(feed)
    ensures AdjustPeriod(feed, start, end).Ok? ==>
      Ascending(AdjustPeriod(feed, start, end).value)
      && exists i, j :: 0 <= i <= j <= |feed| && AdjustPeriod(feed, start, end).value == feed[i..j]
  {
    var r := AdjustPeriod(feed, start, end);
    if r.Ok? {
      AdjustPeriodSubsequence(feed, start, end);
      AscendingSubsequence(r.value, feed);
      var i, j := AscendingWindowIsSlice(feed, start, end);
      assert r.value == feed[i..j];
    }
  }

  /** Ten consecutive days starting at 2020-01-01 (day 18262), with placeholder prices. */
  function TenDays(): (s: seq<Ohlc>)
    ensures |s| == 10 && forall i :: 0 <= i < 10 ==> s[i].date == 18262 + i
  {
    seq(10, i => Record(18262 + i, 1.0, 1.0, 1.0, 1.0))
  }

  lemma TenDaysFromThird()
    ensures Select(TenDays(), AtLeast(18264)) == TenDays()[2..]
  {
    var s := TenDays();
    var before, rest := s[..2], s[2..];
    assert forall i :: 0 <= i < |before| ==> before[i].date == 18262 + i;
    assert forall i :: 0 <= i < |rest| ==> rest[i].date == 18264 + i;
    SelectNone(before, AtLeast(18264));
    SelectAll(rest, AtLeast(18264));
    assert s == before + rest;
    SelectAppend(before, rest, AtLeast(18264));
  }

  lemma TenDaysUntilFifth()
    ensures Select(TenDays()[2..], AtMost(18266)) == TenDays()[2..5]
  {
    var s := TenDays();
    var window, after := s[2..5], s[5..];
    assert forall i :: 0 <= i < |window| ==> window[i].date == 18264 + i;
    assert forall i :: 0 <= i < |after| ==> after[i].date == 18267 + i;
    SelectAll(window, AtMost(18266));
    SelectNone(after, AtMost(18266));
    assert s[2..] == window + after;
    SelectAppend(window, after, AtMost(18266));
  }

  /** Start 2020-01-03 and end 2020-01-05 on ten daily rows keep exactly the three rows of those days. */
  lemma TenDayWindow()
    ensures AdjustPeriod(TenDays(), Some(18264), 18266) == Ok(TenDays()[2..5])
  {
    TenDaysFromThird();
    TenDaysUntilFifth();
    assert TenDays()[2].date == 18264;
  }

  /** A start on 2014-01-01 (day 16071, six calendar years before the first row) is rejected. */
  lemma SixYearsBack()
    ensures AdjustPeriod(TenDays(), Some(16071), 18271).Err?
  {
  }
}
