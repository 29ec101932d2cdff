/** The decisions of `format_excel_professionally` (stock_usa.py:311-434):
    how wide each column is made, and what each data cell becomes. Styling
    objects (fill, font, border), freeze panes, the filter and the header
    row height are not modelled. */
module Formatting {
  import opened Text
  import opened Frames

  // ---------------------------------------------------------------------
  // Column widths
  // ---------------------------------------------------------------------

  /** Length of the longest value in a column (0 for an empty column). */
  function LongestLength(column: seq<string>): (m: nat)
    ensures forall k :: 0 <= k < |column| ==> |column[k]| <= m
    ensures m == 0 || exists k :: 0 <= k < |column| && |column[k]| == m
  {
    if |column| == 0 then 0
    else
      var rest := LongestLength(column[..|column| - 1]);
      assert forall k :: 0 <= k < |column| - 1 ==> column[k] == column[..|column| - 1][k];
      var last := |column[|column| - 1]|;
      if last > rest then last else rest
  }

  /** `min(max_length + 2, 50)`. */
  const WidthCap: nat := 50

  function Min(a: nat, b: nat): nat {
    if a < b then a else b
  }

  /** The width loop for one column: the longest non-empty value plus two,
      capped at 50. Every column is between 2 and 50 wide and fits each of its
      values with two to spare unless the cap is reached. */
  method ColumnWidth(column: seq<string>) returns (width: nat)
    ensures width == Min(LongestLength(column) + 2, WidthCap)
    ensures 2 <= width <= WidthCap
    ensures forall k :: 0 <= k < |column| ==> width >= Min(|column[k]| + 2, WidthCap)
  {
    var maxLength := 0;
    var i := 0;
    while i < |column|
      invariant 0 <= i <= |column|
      invariant maxLength == LongestLength(column[..i])
    {
      assert column[..i + 1][..i] == column[..i];
      if column[i] != "" {
        if |column[i]| > maxLength {
          maxLength := |column[i]|;
        }
      }
      i := i + 1;
    }
    assert column[..i] == column;
    width := Min(maxLength + 2, WidthCap);
  }

  // ---------------------------------------------------------------------
  // Data cells
  // ---------------------------------------------------------------------

  /** Which branch of the formatting loop a cell takes. */
  datatype Branch =
    | Untouched   // None or '': no alignment, no conversion
    | NameCell    // columns 1 and 2: left-aligned only
    | PercentCell // contains '%'
    | CurrencyCell // contains '$' or looks like a number
    | NumberCell  // the "regular numbers" branch
    | TextCell    // anything else: left-aligned text

  /** `value.replace(',', '').replace('.', '').replace('-', '').replace('+', '').isdigit()`,
      with ASCII digits. */
  predicate LooksNumeric(v: string) {
    var w := Remove(Remove(Remove(Remove(v, ','), '.'), '-'), '+');
    |w| > 0 && forall k :: 0 <= k < |w| ==> IsAsciiDigit(w[k])
  }

  /** The branch a cell in (1-based) column `col` with text `raw` takes. A
      cell in the first two columns is never converted; a '%' anywhere wins
      over every other test; and the regular-numbers branch is never taken,
      because its test is one of the two alternatives of the currency test. */
  function Classify(col: nat, raw: string): (b: Branch)
    ensures b == Untouched <==> raw == ""
    ensures b == NameCell <==> raw != "" && col <= 2
    ensures b == PercentCell <==> raw != "" && col > 2 && '%' in Strip(Py, raw)
    ensures b != NumberCell
  {
    if raw == "" then Untouched
    else
      var v := Strip(Py, raw);
      if col <= 2 then NameCell
      else if '%' in v then PercentCell
      else if '$' in v || LooksNumeric(v) then CurrencyCell
      else if LooksNumeric(v) then NumberCell
      else TextCell
  }

  /** Excel number formats the loop sets. */
  datatype NumberFormat =
    | General          // left as loaded
    | PercentFormat    // '0.00%'
    | DollarBillions   // '$#,##0.00,,"B"'
    | DollarMillions   // '$#,##0.00,"M"'
    | DollarThousands  // '$#,##0.00,"K"'
    | Dollars          // '$#,##0.00'
    | Grouped          // '#,##0.00'

  datatype Align = Unaligned | Left | Right

  datatype Value = Text(s: string) | Number(x: real)

  /** A worksheet cell: its value, number format and horizontal alignment. */
  datatype Styled = Styled(value: Value, format: NumberFormat, align: Align)

  function Abs(x: real): real {
    if x < 0.0 then -x else x
  }

  /** The currency format chosen by magnitude. */
  function MagnitudeFormat(x: real): NumberFormat {
    if Abs(x) >= 1000000000.0 then DollarBillions
    else if Abs(x) >= 1000000.0 then DollarMillions
    else if Abs(x) >= 1000.0 then DollarThousands
    else Dollars
  }

  /** Tier order, smallest first. */
  function TierRank(f: NumberFormat): nat {
    match f
    case DollarBillions => 3
    case DollarMillions => 2
    case DollarThousands => 1
    case _ => 0
  }

  /** Each tier is exactly one band of magnitudes, and a larger magnitude never
      gets a smaller tier. */
  lemma MagnitudeFormatBands(x: real, y: real)
    ensures MagnitudeFormat(x) == DollarBillions <==> Abs(x) >= 1000000000.0
    ensures MagnitudeFormat(x) == DollarMillions <==> 1000000.0 <= Abs(x) < 1000000000.0
    ensures MagnitudeFormat(x) == DollarThousands <==> 1000.0 <= Abs(x) < 1000000.0
    ensures MagnitudeFormat(x) == Dollars <==> Abs(x) < 1000.0
    ensures Abs(x) <= Abs(y) ==> TierRank(MagnitudeFormat(x)) <= TierRank(MagnitudeFormat(y))
  {
  }

  /** The text the currency branch hands to float(). */
  function CurrencyText(v: string): string {
    Remove(Remove(Remove(v, '$'), ','), '+')
  }

  /** The text the regular-number fallback hands to float(). */
  function PlainText(v: string): string {
    Remove(Remove(v, ','), '+')
  }

  /** The regular-number attempt: a grouped number, or left-aligned text. */
  function PlainNumber(raw: string, v: string, parse: string -> Option<real>): Styled {
    match parse(PlainText(v))
    case Some(x) => Styled(Number(x), Grouped, Right)
    case None => Styled(Text(raw), General, Left)
  }

  /** What the loop makes of a data cell with text `raw` in column `col`,
      `parse` standing for Python's float(). A percentage is stored divided
      by 100; one that does not parse stays text but is still right-aligned.
      A currency value is stored with its magnitude format; one that does not
      parse gets the regular-number attempt. */
  function FormatCell(col: nat, raw: string, parse: string -> Option<real>): Styled {
    var v := Strip(Py, raw);
    match Classify(col, raw)
    case Untouched => Styled(Text(raw), General, Unaligned)
    case NameCell => Styled(Text(raw), General, Left)
    case PercentCell =>
      (match parse(Remove(Remove(v, '%'), ','))
       case Some(x) => Styled(Number(x / 100.0), PercentFormat, Right)
       case None => Styled(Text(raw), General, Right))
    case CurrencyCell =>
      (match parse(CurrencyText(v))
       case Some(x) => Styled(Number(x), MagnitudeFormat(x), Right)
       case None => PlainNumber(raw, v, parse))
    case NumberCell => PlainNumber(raw, v, parse)
    case TextCell => Styled(Text(raw), General, Left)
  }

  /** Python's float() rejects every string with a '$' in it. */
  ghost predicate RejectsDollar(parse: string -> Option<real>) {
    forall s :: '$' in s ==> parse(s) == None
  }

  /** When the currency parse fails the regular-number fallback fails too: the
      fallback text is the currency text when there is no '$', and still has
      the '$' otherwise. */
  lemma PlainFallbackFails(v: string, parse: string -> Option<real>)
    requires RejectsDollar(parse)
    requires parse(CurrencyText(v)) == None
    ensures parse(PlainText(v)) == None
  {
    if '$' in v {
      RemoveKeeps(v, ',', '$');
      RemoveKeeps(Remove(v, ','), '+', '$');
    } else {
      RemoveAbsent(v, '$');
    }
  }

  /** With float()'s behaviour on '$', no cell ever gets the '#,##0.00'
      format: the regular-numbers branch is never taken and the fallback
      inside the currency branch never parses. Every converted cell is
      right-aligned, and only cells in column 3 or later are converted. */
  lemma GroupedFormatUnused(col: nat, raw: string, parse: string -> Option<real>)
    requires RejectsDollar(parse)
    ensures FormatCell(col, raw, parse).format != Grouped
    ensures FormatCell(col, raw, parse).value.Number? ==>
      col > 2 && FormatCell(col, raw, parse).align == Right
  {
    var v := Strip(Py, raw);
    if Classify(col, raw) == CurrencyCell && parse(CurrencyText(v)) == None {
      PlainFallbackFails(v, parse);
    }
  }

  /** The currency branch hands float() the digits of a dollar amount
      written with two thousands separators. */
  lemma CurrencyTextGrouped(a: string, b: string, c: string)
    requires '$' !in a && ',' !in a && '+' !in a
    requires '$' !in b && ',' !in b && '+' !in b
    requires '$' !in c && ',' !in c && '+' !in c
    ensures CurrencyText(['$'] + (a + [','] + (b + [','] + c))) == a + b + c
  {
    var bc := b + [','] + c;
    var t := a + [','] + bc;
    assert '$' !in bc;
    assert '$' !in t;
    RemoveAround([], t, '$');
    assert [] + ['$'] + t == ['$'] + t;
    RemoveAbsent(t, '$');
    RemoveAround(a, bc, ',');
    RemoveAround(b, c, ',');
    RemoveAbsent(a, ',');
    RemoveAbsent(b, ',');
    RemoveAbsent(c, ',');
    assert Remove(t, ',') == a + (b + c);
    RemoveAbsent(a + (b + c), '+');
    assert a + (b + c) == a + b + c;
  }

  /** A currency cell whose text parses is stored with its magnitude format. */
  lemma CurrencyCellParsed(col: nat, raw: string, parse: string -> Option<real>, x: real)
    requires Classify(col, raw) == CurrencyCell && parse(CurrencyText(Strip(Py, raw))) == Some(x)
    ensures FormatCell(col, raw, parse) == Styled(Number(x), MagnitudeFormat(x), Right)
  {
  }

  /** A stripped cell past the second column with a '$' and no '%' takes the
      currency branch. */
  lemma DollarCellBranch(col: nat, raw: string)
    requires col > 2 && raw != "" && IsStripped(Py, raw) && '$' in raw && '%' !in raw
    ensures Strip(Py, raw) == raw && Classify(col, raw) == CurrencyCell
  {
    StripStripped(Py, raw);
  }

  /** A dollar amount written with two thousands separators, past the second
      column, is stored as the number of its bare digits, with its magnitude
      format, right-aligned. */
  lemma DollarAmountCell(col: nat, a: string, b: string, c: string, parse: string -> Option<real>, x: real)
    requires col > 2
    requires '$' !in a && ',' !in a && '+' !in a && '%' !in a
    requires '$' !in b && ',' !in b && '+' !in b && '%' !in b
    requires '$' !in c && ',' !in c && '+' !in c && '%' !in c
    requires IsStripped(Py, "$" + a + "," + b + "," + c)
    requires parse(a + b + c) == Some(x)
    ensures FormatCell(col, "$" + a + "," + b + "," + c, parse) == Styled(Number(x), MagnitudeFormat(x), Right)
  {
    var raw := "$" + a + "," + b + "," + c;
    assert raw == ['$'] + (a + [','] + (b + [','] + c));
    assert raw[0] == '$';
    assert '%' !in raw;
    DollarCellBranch(col, raw);
    CurrencyTextGrouped(a, b, c);
    CurrencyCellParsed(col, raw, parse, x);
  }

  /** "$1,234,567.00" takes the currency branch and has nothing to strip. */
  lemma CurrencyExampleBranch()
    ensures Classify(3, "$1,234,567.00") == CurrencyCell
    ensures Strip(Py, "$1,234,567.00") == "$1,234,567.00"
  {
    var raw := "$1,234,567.00";
    assert raw[0] == '$';
    DollarCellBranch(3, raw);
  }

  /** "$1,234,567.00" is sent to float() as "1234567.00". */
  lemma CurrencyExampleText()
    ensures CurrencyText("$1,234,567.00") == "1234567.00"
  {
    assert ['$'] + ("1" + [','] + ("234" + [','] + "567.00")) == "$1,234,567.00";
    CurrencyTextGrouped("1", "234", "567.00");
    assert "1" + "234" + "567.00" == "1234567.00";
  }

  /** "$1,234,567.00" is converted to 1234567.00 with the millions format. */
  lemma CurrencyExample(parse: string -> Option<real>)
    requires parse("1234567.00") == Some(1234567.0)
    ensures FormatCell(3, "$1,234,567.00", parse) == Styled(Number(1234567.0), DollarMillions, Right)
  {
    CurrencyExampleBranch();
    CurrencyExampleText();
    CurrencyCellParsed(3, "$1,234,567.00", parse, 1234567.0);
  }

  /** A percent cell whose text parses holds a hundredth of the number, in the
      percent format, right-aligned. */
  lemma PercentCellParsed(col: nat, raw: string, parse: string -> Option<real>, x: real)
    requires Classify(col, raw) == PercentCell && parse(Remove(Remove(Strip(Py, raw), '%'), ',')) == Some(x)
    ensures FormatCell(col, raw, parse) == Styled(Number(x / 100.0), PercentFormat, Right)
  {
  }

  /** A number followed by '%' reaches float() as the number. */
  lemma PercentTextNumber(v: string)
    requires '%' !in v && ',' !in v
    ensures Remove(Remove(v + "%", '%'), ',') == v
  {
    RemoveConcat(v, "%", '%');
    RemoveAbsent(v, '%');
    assert Remove("%", '%') == "";
    assert v + "" == v;
    RemoveAbsent(v, ',');
  }

  /** A number followed by '%', past the second column, is stored as a
      hundredth of the number, in the percent format, right-aligned. */
  lemma PercentCellNumber(col: nat, v: string, parse: string -> Option<real>, x: real)
    requires col > 2 && '%' !in v && ',' !in v && IsStripped(Py, v + "%")
    requires parse(v) == Some(x)
    ensures FormatCell(col, v + "%", parse) == Styled(Number(x / 100.0), PercentFormat, Right)
  {
    var raw := v + "%";
    StripStripped(Py, raw);
    assert '%' in raw by { assert raw[|v|] == '%'; }
    PercentTextNumber(v);
    PercentCellParsed(col, raw, parse, x);
  }

  /** "12.5%" takes the percent branch and has nothing to strip. */
  lemma PercentExampleBranch()
    ensures Classify(3, "12.5%") == PercentCell
    ensures Strip(Py, "12.5%") == "12.5%"
  {
    var raw := "12.5%";
    StripStripped(Py, raw);
    assert raw[4] == '%';
  }

  /** "12.5%" is converted to 0.125 with the percent format. */
  lemma PercentExample(parse: string -> Option<real>)
    requires parse("12.5") == Some(12.5)
    ensures FormatCell(3, "12.5%", parse) == Styled(Number(0.125), PercentFormat, Right)
  {
    PercentExampleBranch();
    assert "12.5" + "%" == "12.5%";
    PercentTextNumber("12.5");
    PercentCellParsed(3, "12.5%", parse, 12.5);
  }

  // ---------------------------------------------------------------------
  // The worksheet
  // ---------------------------------------------------------------------

  /** The text a loaded cell holds. */
  function TextOf(c: Styled): string {
    if c.value.Text? then c.value.s else ""
  }

  /** A cell as the workbook loads it: its text, general format, no alignment. */
  function Loaded(s: string): Styled {
    Styled(Text(s), General, Unaligned)
  }

  /** One data row after the formatting loop; columns are numbered from 1. */
  function FormatRow(row: seq<Styled>, parse: string -> Option<real>): (r: seq<Styled>)
    ensures |r| == |row|
  {
    seq(|row|, j requires 0 <= j < |row| => FormatCell(j + 1, TextOf(row[j]), parse))
  }

  /** The formatting loop over one data row. */
  method FormatCells(row: seq<Styled>, parse: string -> Option<real>) returns (formatted: seq<Styled>)
    ensures formatted == FormatRow(row, parse)
  {
    ghost var spec := FormatRow(row, parse);
    formatted := [];
    var j := 0;
    while j < |row|
      invariant 0 <= j <= |row| && formatted == spec[..j]
    {
      var c := FormatCell(j + 1, TextOf(row[j]), parse);
      assert c == spec[j];
      formatted := formatted + [c];
      j := j + 1;
    }
    assert spec[..j] == spec;
  }

  /** The text of column j of a grid. */
  function ColumnText(grid: seq<seq<Styled>>, j: nat): seq<string>
    requires forall i :: 0 <= i < |grid| ==> j < |grid[i]|
  {
    seq(|grid|, i requires 0 <= i < |grid| => TextOf(grid[i][j]))
  }

  /** The width loop over every column of a grid whose rows are all as wide
      as the first. */
  method ColumnWidths(grid: seq<seq<Styled>>) returns (ws: seq<nat>)
    requires |grid| >= 1 && forall i :: 0 <= i < |grid| ==> |grid[i]| == |grid[0]|
    ensures |ws| == |grid[0]|
    ensures forall j :: 0 <= j < |ws| ==> ws[j] == Min(LongestLength(ColumnText(grid, j)) + 2, WidthCap)
  {
    var n := |grid[0]|;
    ws := [];
    var j := 0;
    while j < n
      invariant 0 <= j <= n && |ws| == j
      invariant forall k :: 0 <= k < j ==> ws[k] == Min(LongestLength(ColumnText(grid, k)) + 2, WidthCap)
    {
      var w := ColumnWidth(ColumnText(grid, j));
      ws := ws + [w];
      j := j + 1;
    }
  }

  /** A worksheet as openpyxl holds it: a header row and data rows of cells,
      and a width per column. */
  class Worksheet {
    var title: string
    var cells: seq<seq<Styled>>
    var widths: seq<nat>

    /** Every row is as wide as the header row. */
    ghost predicate Valid()
      reads this
    {
      |cells| >= 1 && forall i :: 0 <= i < |cells| ==> |cells[i]| == |cells[0]|
    }

    /** Nothing has been formatted yet: every cell holds text as loaded. */
    ghost predicate Unformatted()
      reads this
    {
      forall i, j :: 0 <= i < |cells| && 0 <= j < |cells[i]| ==> cells[i][j] == Loaded(TextOf(cells[i][j]))
    }

    /** DataFrame.to_excel(index=False) followed by load_workbook: the header
        row from the column names, then one row per frame row, a missing value
        becoming an empty cell. */
    constructor (name: string, t: Table)
      requires t.Rectangular()
      ensures Valid() && Unformatted() && title == name && widths == []
      ensures |cells| == |t.rows| + 1 && |cells[0]| == |t.columns|
      ensures forall j :: 0 <= j < |t.columns| ==> cells[0][j] == Loaded(t.columns[j])
      ensures forall i, j :: 0 <= i < |t.rows| && 0 <= j < |t.columns| ==>
        cells[i + 1][j] == Loaded(if t.rows[i][j].Str? then t.rows[i][j].s else "")
    {
      title := name;
      widths := [];
      var header := seq(|t.columns|, j requires 0 <= j < |t.columns| => Loaded(t.columns[j]));
      cells := [header] + seq(|t.rows|, i requires 0 <= i < |t.rows| =>
        seq(|t.columns|, j requires 0 <= j < |t.columns| =>
          Loaded(if t.rows[i][j].Str? then t.rows[i][j].s else "")));
    }

    /** Step 2 of the formatting pass: one width per column from its values,
        header included. */
    method AutoSizeColumns()
      requires Valid()
      modifies this
      ensures Valid() && cells == old(cells) && title == old(title)
      ensures |widths| == |cells[0]|
      ensures forall j :: 0 <= j < |widths| ==>
        widths[j] == Min(LongestLength(ColumnText(cells, j)) + 2, WidthCap)
    {
      var ws := ColumnWidths(cells);
      widths := ws;
    }

    /** Step 3 of the formatting pass: every data row (the header row is
        skipped) rewritten cell by cell. */
    method FormatDataCells(parse: string -> Option<real>)
      requires Valid()
      modifies this
      ensures Valid() && title == old(title) && widths == old(widths)
      ensures |cells| == |old(cells)| && cells[0] == old(cells[0])
      ensures forall i :: 1 <= i < |cells| ==> cells[i] == FormatRow(old(cells[i]), parse)
    {
      var n := |cells[0]|;
      var i := 1;
      while i < |cells|
        invariant 1 <= i <= |cells| && Valid() && |cells| == |old(cells)| && |cells[0]| == n
        invariant cells[0] == old(cells[0]) && title == old(title) && widths == old(widths)
        invariant forall k :: 1 <= k < i ==> cells[k] == FormatRow(old(cells[k]), parse)
        invariant forall k :: i <= k < |cells| ==> cells[k] == old(cells[k])
      {
        var formatted := FormatCells(cells[i], parse);
        cells := cells[i := formatted];
        i := i + 1;
      }
    }

    /** The per-sheet formatting pass: widths first (from the text as
        loaded), then the data cells. */
    method FormatSheet(parse: string -> Option<real>)
      requires Valid()
      modifies this
      ensures Valid() && title == old(title)
      ensures |widths| == |cells[0]| == |old(cells[0])|
      ensures forall j :: 0 <= j < |widths| ==>
        widths[j] == Min(LongestLength(ColumnText(old(cells), j)) + 2, WidthCap)
      ensures |cells| == |old(cells)| && cells[0] == old(cells[0])
      ensures forall i :: 1 <= i < |cells| ==> cells[i] == FormatRow(old(cells[i]), parse)
    {
      AutoSizeColumns();
      FormatDataCells(parse);
    }
  }
}
