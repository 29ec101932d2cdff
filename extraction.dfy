/** What `extract_table_data_fast` does with the page's table: the in-page
    read of the first cell of each row (stock_usa.py:142-177), and, once the
    read has returned, header and row reconciliation into a DataFrame
    (stock_usa.py:184-215). */
module Extraction {
  import opened Text
  import opened Frames
  import opened Tickers

  // ---------------------------------------------------------------------
  // The in-page read
  // ---------------------------------------------------------------------

  /** A table cell as the page script sees it: its visible text, and the text
      of the ticker-name and ticker-description sub-elements when present. */
  datatype PageCell = PageCell(text: string, symbol: Option<string>, description: Option<string>)

  /** The two values the page script pushes for the first cell of a row: the
      sub-elements' texts when both exist; otherwise the trimmed text split at
      its first line break, the later lines joined by a space; otherwise the
      trimmed text and an empty name. */
  function ReadFirstCell(c: PageCell): (r: seq<string>)
    ensures |r| == 2
    ensures c.symbol.Some? && c.description.Some? ==>
      r == [Strip(Js, c.symbol.value), Strip(Js, c.description.value)]
  {
    if c.symbol.Some? && c.description.Some? then
      [Strip(Js, c.symbol.value), Strip(Js, c.description.value)]
    else
      var full := Strip(Js, c.text);
      var lines := Split(full, '\n');
      if |lines| >= 2 then [Strip(Js, lines[0]), Strip(Js, Join(lines[1..], ' '))]
      else [full, ""]
  }

  /** Without sub-elements the fallback keeps the trimmed text whole when it
      has no line break, and otherwise puts a line-break-free symbol first; in
      both cases the trimmed text is the lines it was split into, rejoined. */
  lemma ReadFirstCellFallback(c: PageCell)
    requires !(c.symbol.Some? && c.description.Some?)
    ensures var full := Strip(Js, c.text);
      && Join(Split(full, '\n'), '\n') == full
      && ('\n' !in full ==> ReadFirstCell(c) == [full, ""])
      && ('\n' in full ==> '\n' !in ReadFirstCell(c)[0])
  {
    var full := Strip(Js, c.text);
    JoinSplit(full, '\n');
    SplitSingle(full, '\n');
    var lines := Split(full, '\n');
    if |lines| >= 2 {
      StripKeepsOut(Js, lines[0], '\n');
    }
  }

  /** Without sub-elements, a trimmed text made of a first line, a line break
      and anything after it gives the trimmed first line as the symbol and, as
      the name, the rest with every further line break turned into a space,
      trimmed. */
  lemma ReadFirstCellLines(c: PageCell, a: string, b: string)
    requires !(c.symbol.Some? && c.description.Some?)
    requires Strip(Js, c.text) == a + "\n" + b && '\n' !in a
    ensures ReadFirstCell(c) == [Strip(Js, a), Strip(Js, ReplaceChar(b, '\n', ' '))]
  {
    var full := Strip(Js, c.text);
    assert full == a + ['\n'] + b;
    SplitFirstPiece(a, b, '\n');
    var lines := Split(full, '\n');
    assert lines[0] == a && lines[1..] == Split(b, '\n');
    JoinSplitReplace(b, '\n', ' ');
  }

  /** One row as the page script reads it: the first cell gives two values,
      every other cell its trimmed text. */
  function ReadRow(cells: seq<PageCell>): (r: seq<string>)
    ensures |cells| == 0 ==> r == []
    ensures |cells| > 0 ==> |r| == |cells| + 1 && r[..2] == ReadFirstCell(cells[0])
    ensures forall k :: 1 <= k < |cells| ==> r[k + 1] == Strip(Js, cells[k].text)
  {
    if |cells| == 0 then []
    else ReadFirstCell(cells[0]) + seq(|cells| - 1, k requires 0 <= k < |cells| - 1 => Strip(Js, cells[k + 1].text))
  }

  /** The rows the page script returns: every row read, rows with no values
      left out. */
  function ReadRows(table: seq<seq<PageCell>>): (r: seq<seq<string>>)
    ensures |r| <= |table|
    ensures forall i :: 0 <= i < |r| ==> |r[i]| >= 2
  {
    if |table| == 0 then []
    else
      var row := ReadRow(table[0]);
      (if |row| > 0 then [row] else []) + ReadRows(table[1..])
  }

  /** A row is returned exactly when it has a cell, as the values read from
      its cells. */
  lemma {:induction false} ReadRowsMembership(table: seq<seq<PageCell>>, row: seq<string>)
    ensures row in ReadRows(table) <==>
      exists i :: 0 <= i < |table| && |table[i]| > 0 && row == ReadRow(table[i])
  {
    if |table| > 0 {
      ReadRowsMembership(table[1..], row);
      assert forall i :: 1 <= i < |table| ==> table[i] == table[1..][i - 1];
      if row in ReadRows(table) && row !in ReadRows(table[1..]) {
        assert row == ReadRow(table[0]) && |table[0]| > 0;
      }
      if exists i :: 0 <= i < |table| && |table[i]| > 0 && row == ReadRow(table[i]) {
        var i :| 0 <= i < |table| && |table[i]| > 0 && row == ReadRow(table[i]);
        if i > 0 {
          assert table[1..][i - 1] == table[i];
        }
      }
    }
  }

  /** When every row has a cell, every row is returned, in order. */
  lemma {:induction false} ReadRowsKeepsAll(table: seq<seq<PageCell>>)
    requires forall i :: 0 <= i < |table| ==> |table[i]| > 0
    ensures |ReadRows(table)| == |table|
    ensures forall i :: 0 <= i < |table| ==> ReadRows(table)[i] == ReadRow(table[i])
  {
    if |table| > 0 {
      ReadRowsKeepsAll(table[1..]);
    }
  }

  // ---------------------------------------------------------------------
  // Header and row reconciliation
  // ---------------------------------------------------------------------

  /** `headers[0].lower() in ['ticker', 'symbol']`. */
  predicate IsTickerHeader(h: string) {
    Lower(h) == "ticker" || Lower(h) == "symbol"
  }

  /** The headers with a leading ticker/symbol header renamed to Ticker and
      followed by a synthetic Company Name header. */
  function AdjustHeaders(headers: seq<string>): (r: seq<string>)
    ensures |headers| > 0 && IsTickerHeader(headers[0]) ==>
      |r| == |headers| + 1 && r[0] == TickerColumn && r[1] == NameColumn && r[2..] == headers[1..]
    ensures !(|headers| > 0 && IsTickerHeader(headers[0])) ==> r == headers
  {
    if |headers| > 0 && IsTickerHeader(headers[0]) then [TickerColumn, NameColumn] + headers[1..]
    else headers
  }

  /** `f'Column_{i}'`. */
  function ColumnName(i: nat): string {
    "Column_" + Decimal(i)
  }

  /** The headers fitted to `width` columns: padded with Column_i names for the
      missing positions i, or cut to their first `width` names. */
  function FitHeaders(headers: seq<string>, width: nat): (r: seq<string>)
    ensures |r| == width
    ensures forall i :: 0 <= i < width && i < |headers| ==> r[i] == headers[i]
    ensures forall i :: |headers| <= i < width ==> r[i] == ColumnName(i)
  {
    if |headers| < width then headers + seq(width - |headers|, k requires 0 <= k => ColumnName(|headers| + k))
    else headers[..width]
  }

  /** `max(len(row) for row in rows_data)`. */
  function MaxWidth(rows: seq<seq<string>>): (m: nat)
    requires |rows| > 0
    ensures forall i :: 0 <= i < |rows| ==> |rows[i]| <= m
    ensures exists i :: 0 <= i < |rows| && |rows[i]| == m
  {
    if |rows| == 1 then |rows[0]|
    else
      var rest := MaxWidth(rows[1..]);
      assert forall i :: 1 <= i < |rows| ==> rows[i] == rows[1..][i - 1];
      if |rows[0]| >= rest then |rows[0]| else rest
  }

  /** `row + [''] * (width - len(row))`; a list times a negative count is empty. */
  function PadRow(row: seq<string>, width: nat): seq<string> {
    if |row| < width then row + seq(width - |row|, _ => "") else row
  }

  /** A row as DataFrame cells. */
  function Cells(row: seq<string>): seq<Cell> {
    seq(|row|, k requires 0 <= k < |row| => Str(row[k]))
  }

  /** The DataFrame built from non-empty headers and rows, before the ticker
      split (stock_usa.py:195-207). */
  function BuildFrame(headers: seq<string>, rows: seq<seq<string>>): (r: Table)
    requires |headers| > 0 && |rows| > 0
    ensures r.Rectangular() && |r.rows| == |rows| && |r.columns| == MaxWidth(rows)
  {
    var width := MaxWidth(rows);
    Table(FitHeaders(headers, width),
          seq(|rows|, i requires 0 <= i < |rows| => Cells(PadRow(rows[i], width))))
  }

  /** Padding never cuts a row: each padded row starts with the original row,
      continues with empty strings only, and is as wide as the widest row. */
  lemma BuildFramePadding(headers: seq<string>, rows: seq<seq<string>>, i: nat)
    requires |headers| > 0 && i < |rows|
    ensures var r := BuildFrame(headers, rows);
      && |rows[i]| <= |r.columns|
      && |r.rows[i]| == |r.columns|
      && r.rows[i][..|rows[i]|] == Cells(rows[i])
      && forall k :: |rows[i]| <= k < |r.columns| ==> r.rows[i][k] == Str("")
  {
    var r := BuildFrame(headers, rows);
    assert r.rows[i][..|rows[i]|] == Cells(rows[i]);
  }

  /** extract_table_data_fast from the returned headers and rows: the empty
      frame when either is empty; otherwise the reconciled frame, split by
      split_ticker_column when it has a Ticker column. */
  function ExtractTable(headers: seq<string>, rows: seq<seq<string>>): (r: Table)
    ensures r.Rectangular()
    ensures (|headers| == 0 || |rows| == 0) ==> r == EmptyTable
    ensures |headers| > 0 && |rows| > 0 ==> |r.rows| == |rows|
  {
    var adjusted := AdjustHeaders(headers);
    if |adjusted| > 0 && |rows| > 0 then
      var frame := BuildFrame(adjusted, rows);
      if TickerColumn in frame.columns then SplitTickers(frame) else frame
    else EmptyTable
  }

  /** When the first header is a ticker header and every row has at least two
      values (as every row the page script returns does), the Company Name
      column already holds strings, so split_ticker_column leaves the frame
      as built. */
  lemma ExtractTableSkipsSplit(headers: seq<string>, rows: seq<seq<string>>)
    requires |headers| > 0 && IsTickerHeader(headers[0]) && |rows| > 0
    requires forall i :: 0 <= i < |rows| ==> |rows[i]| >= 2
    ensures ExtractTable(headers, rows) == BuildFrame(AdjustHeaders(headers), rows)
  {
    var frame := BuildFrame(AdjustHeaders(headers), rows);
    assert frame.columns[0] == TickerColumn && frame.columns[1] == NameColumn;
    assert IndexOf(frame.columns, NameColumn) == 1;
    assert frame.rows[0][1] == Str(rows[0][1]);
    assert SplitSkipped(frame);
  }

  /** A lower-case "symbol" header becomes Ticker followed by Company Name. */
  lemma SymbolHeaderExample()
    ensures AdjustHeaders(["symbol", "Price", "Change"]) == ["Ticker", "Company Name", "Price", "Change"]
  {
    assert Lower("symbol") == "symbol";
  }

  /** An upper-case "TICKER" header is recognised too. */
  lemma TickerHeaderExample()
    ensures AdjustHeaders(["TICKER"]) == ["Ticker", "Company Name"]
  {
    assert Lower("TICKER") == "ticker";
  }
}
