/**
 * Column cleaning of the parsed feed: the four extraneous columns are dropped by position,
 * the remaining five are named in the order the feed emits them (Date, Close, Open, High, Low),
 * the columns are selected in the canonical order (Date, Open, High, Low, Close), and every row
 * with a null in one of them is dropped.
 */
module Normalise {

  import opened Wrappers
  import opened Series
  import opened Subsequences

  /** What the four columns produced by the mangled header hold; they are discarded unread. */
  type Extra = string

  /**
   * One row of the quote-delimited parse: nine cells by position, any of them possibly null.
   * Cell 0 is the date, cells 1 to 4 are the price fields, cells 5 to 8 are extraneous.
   */
  datatype RawRow = RawRow(
    cell0: Option<Date>, cell1: Option<Price>, cell2: Option<Price>, cell3: Option<Price>,
    cell4: Option<Price>, cell5: Option<Extra>, cell6: Option<Extra>, cell7: Option<Extra>,
    cell8: Option<Extra>)

  /** A row once positions 5 to 8 are dropped and the rest are named, in source order. */
  datatype LabelledRow = LabelledRow(
    date: Option<Date>, close: Option<Price>, open: Option<Price>, high: Option<Price>, low: Option<Price>)

  /** The names given at line 25 to the five kept columns, in the order the feed emits them. */
  const FEED_COLUMNS: seq<string> := ["Date", "Close", "Open", "High", "Low"]

  /** The order in which the columns are selected, which is the order of the series' columns. */
  const SERIES_COLUMNS: seq<string> := ["Date", "Open", "High", "Low", "Close"]

  /** The price cell at position `k` (1 to 4) of a raw row. */
  function RawPrice(r: RawRow, k: nat): Option<Price>
    requires 1 <= k <= 4
  {
    if k == 1 then r.cell1 else if k == 2 then r.cell2 else if k == 3 then r.cell3 else r.cell4
  }

  /** The price column of a labelled row, looked up by its name. */
  function LabelledPrice(l: LabelledRow, name: string): Option<Price>
    requires name in {"Close", "Open", "High", "Low"}
  {
    if name == "Close" then l.close else if name == "Open" then l.open
    else if name == "High" then l.high else l.low
  }

  /** The price cell at position `k` (1 to 4) of a selected row. */
  function RecordPrice(r: NullableRecord, k: nat): Option<Price>
    requires 1 <= k <= 4
  {
    if k == 1 then r.open else if k == 2 then r.high else if k == 3 then r.low else r.close
  }

  /**
   * Dropping positions 5 to 8 and naming the five remaining columns: the column named
   * `FEED_COLUMNS[k]` holds the cell at position `k`.
   */
  function DropAndLabel(r: RawRow): (l: LabelledRow)
    ensures l.date == r.cell0
    ensures forall k :: 1 <= k <= 4 ==> LabelledPrice(l, FEED_COLUMNS[k]) == RawPrice(r, k)
  {
    LabelledRow(r.cell0, r.cell1, r.cell2, r.cell3, r.cell4)
  }

  /** Selecting by name: position `k` of the selected row holds the column named `SERIES_COLUMNS[k]`. */
  function Reorder(l: LabelledRow): (r: NullableRecord)
    ensures r.date == l.date
    ensures forall k :: 1 <= k <= 4 ==> RecordPrice(r, k) == LabelledPrice(l, SERIES_COLUMNS[k])
  {
    Record(l.date, l.open, l.high, l.low, l.close)
  }

  /**
   * The column drop, rename and selection on every row: row `i` of the result has the date of
   * raw row `i`, then its cells 2, 3, 4 and 1 as Open, High, Low and Close.
   */
  function SelectColumns(raw: seq<RawRow>): (rows: seq<NullableRecord>)
    ensures |rows| == |raw|
    ensures forall i :: 0 <= i < |raw| ==>
      rows[i] == Record(raw[i].cell0, raw[i].cell2, raw[i].cell3, raw[i].cell4, raw[i].cell1)
  {
    seq(|raw|, i requires 0 <= i < |raw| => Reorder(DropAndLabel(raw[i])))
  }

  /** No cell of the row is null. */
  predicate Complete(r: NullableRecord)
  {
    r.date.Some? && r.open.Some? && r.high.Some? && r.low.Some? && r.close.Some?
  }

  function Unwrap(r: NullableRecord): Ohlc
    requires Complete(r)
  {
    Record(r.date.value, r.open.value, r.high.value, r.low.value, r.close.value)
  }

  /** None of the five cells that survive the column drop is null. */
  predicate KeptCellsPresent(r: RawRow)
  {
    r.cell0.Some? && r.cell1.Some? && r.cell2.Some? && r.cell3.Some? && r.cell4.Some?
  }

  /** A cleaned row seen again as a row of the nullable table. */
  function Nullable(x: Ohlc): NullableRecord
  {
    Record(Some(x.date), Some(x.open), Some(x.high), Some(x.low), Some(x.close))
  }

  function Lift(s: seq<Ohlc>): seq<NullableRecord>
  {
    seq(|s|, i requires 0 <= i < |s| => Nullable(s[i]))
  }

  /**
   * `dropna()`: the rows without a null, in their original order. A cleaned row is in the
   * result exactly when the table holds that row with all five cells present.
   */
  function DropNa(rows: seq<NullableRecord>): (r: seq<Ohlc>)
    ensures |r| <= |rows|
    ensures forall x :: x in r <==> Nullable(x) in rows
  {
    if rows == [] then []
    else if Complete(rows[0]) then [Unwrap(rows[0])] + DropNa(rows[1..])
    else DropNa(rows[1..])
  }

  /** The whole cleaning step of the feed, from parsed rows to the canonical series. */
  function Clean(raw: seq<RawRow>): (r: seq<Ohlc>)
    ensures |r| <= |raw|
    ensures forall x :: x in r <==>
      exists row :: row in raw && row.cell0 == Some(x.date) && row.cell1 == Some(x.close)
        && row.cell2 == Some(x.open) && row.cell3 == Some(x.high) && row.cell4 == Some(x.low)
  {
    DropNa(SelectColumns(raw))
  }

  /** Null-dropping distributes over concatenation of tables. */
  lemma {:induction false} DropNaAppend(a: seq<NullableRecord>, b: seq<NullableRecord>)
    ensures DropNa(a + b) == DropNa(a) + DropNa(b)
    decreases |a|
  {
    if a != [] {
      assert (a + b)[1..] == a[1..] + b;
      DropNaAppend(a[1..], b);
    } else {
      assert a + b == b;
    }
  }

  /** The null-drop keeps the surviving rows in their order, with their values unchanged. */
  lemma {:induction false} DropNaSubsequence(rows: seq<NullableRecord>)
    ensures IsSubsequence(Lift(DropNa(rows)), rows)
    decreases |rows|
  {
    if rows != [] {
      DropNaSubsequence(rows[1..]);
      var rest := DropNa(rows[1..]);
      if Complete(rows[0]) {
        var out := [Unwrap(rows[0])] + rest;
        assert DropNa(rows) == out;
        assert Lift(out)[0] == rows[0];
        assert Lift(out)[1..] == Lift(rest);
      } else {
        assert DropNa(rows) == rest;
      }
    }
  }

  /** Nothing is dropped exactly when no row holds a null. */
  lemma {:induction false} DropNaKeepsAll(rows: seq<NullableRecord>)
    ensures |DropNa(rows)| == |rows| <==> forall r :: r in rows ==> Complete(r)
    decreases |rows|
  {
    if rows != [] {
      DropNaKeepsAll(rows[1..]);
      assert forall r :: r in rows <==> r == rows[0] || r in rows[1..];
    }
  }

  /**
   * The raw row [d, c, o, h, l, x5, x6, x7, x8] becomes the record Date=d, Open=o, High=h,
   * Low=l, Close=c whatever the extraneous cells hold, and a row with a null among the five
   * kept cells is removed.
   */
  lemma CleanSingleRow(r: RawRow)
    ensures Clean([r]) ==
      if KeptCellsPresent(r)
      then [Record(r.cell0.value, r.cell2.value, r.cell3.value, r.cell4.value, r.cell1.value)]
      else []
  {
    assert SelectColumns([r])[1..] == [];
  }

  /** Cleaning works row by row: together with CleanSingleRow this determines Clean completely. */
  lemma CleanAppend(a: seq<RawRow>, b: seq<RawRow>)
    ensures Clean(a + b) == Clean(a) + Clean(b)
  {
    assert SelectColumns(a + b) == SelectColumns(a) + SelectColumns(b);
    DropNaAppend(SelectColumns(a), SelectColumns(b));
  }

  /** The cells in positions 5 to 8 never influence the result. */
  lemma CleanIgnoresExtras(raw: seq<RawRow>, raw': seq<RawRow>)
    requires |raw| == |raw'|
    requires forall i :: 0 <= i < |raw| ==> DropAndLabel(raw[i]) == DropAndLabel(raw'[i])
    ensures Clean(raw) == Clean(raw')
  {
    assert SelectColumns(raw) == SelectColumns(raw');
  }

  /** The cleaned series is as long as the raw table exactly when no kept cell is null. */
  lemma CleanKeepsAll(raw: seq<RawRow>)
    ensures |Clean(raw)| == |raw| <==>
      forall r :: r in raw ==> KeptCellsPresent(r)
  {
    var rows := SelectColumns(raw);
    DropNaKeepsAll(rows);
    forall i | 0 <= i < |raw|
      ensures Complete(rows[i]) == KeptCellsPresent(raw[i])
    {
    }
    assert (forall r :: r in rows ==> Complete(r)) <==> (forall i :: 0 <= i < |rows| ==> Complete(rows[i]));
    assert (forall r :: r in raw ==> KeptCellsPresent(r)) <==> (forall i :: 0 <= i < |raw| ==> KeptCellsPresent(raw[i]));
  }

  /**
   * An example row: "2020-01-01","100.5","99.0","101.0","98.5","X","Y","Z","W" becomes
   * Date=2020-01-01, Open=99.0, High=101.0, Low=98.5, Close=100.5.
   */
  lemma SampleRow()
    ensures Clean([RawRow(Some(18262), Some(100.5), Some(99.0), Some(101.0), Some(98.5),
                          Some("X"), Some("Y"), Some("Z"), Some("W"))])
      == [Record(18262, 99.0, 101.0, 98.5, 100.5)]
  {
    CleanSingleRow(RawRow(Some(18262), Some(100.5), Some(99.0), Some(101.0), Some(98.5),
                          Some("X"), Some("Y"), Some("Z"), Some("W")));
  }
}
