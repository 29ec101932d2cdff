/** Which tables `save_to_excel` writes and under what sheet names
    (stock_usa.py:442-446), and the nine tabs scrape_all_tabs collects
    (stock_usa.py:289-299). */
module Export {
  import opened Frames

  /** Excel's limit on the length of a sheet name. */
  const SheetNameLimit: nat := 31

  /** `sheet_name[:31]`. */
  function SheetName(tab: string): (r: string)
    ensures |r| <= SheetNameLimit
    ensures |r| <= |tab| && r == tab[..|r|]
    ensures |tab| <= SheetNameLimit <==> r == tab
    ensures |tab| > SheetNameLimit ==> |r| == SheetNameLimit
  {
    if |tab| <= SheetNameLimit then tab else tab[..SheetNameLimit]
  }

  /** The sheets written for one entry of the scraped data: none for an empty
      table, otherwise the table under its truncated name. */
  function SheetFor(entry: (string, Table)): seq<(string, Table)> {
    if entry.1.IsEmpty() then [] else [(SheetName(entry.0), entry.1)]
  }

  /** The sheets written, in the order of the scraped data. */
  function Workbook(data: seq<(string, Table)>): (r: seq<(string, Table)>)
    ensures |r| <= |data|
    ensures forall k :: 0 <= k < |r| ==> |r[k].0| <= SheetNameLimit && !r[k].1.IsEmpty()
  {
    if |data| == 0 then [] else Workbook(data[..|data| - 1]) + SheetFor(data[|data| - 1])
  }

  /** A sheet is written exactly for each entry whose table is non-empty, under
      that entry's truncated name. */
  lemma {:induction false} WorkbookSheets(data: seq<(string, Table)>, name: string, t: Table)
    ensures (name, t) in Workbook(data) <==>
      exists i :: 0 <= i < |data| && data[i].1 == t && !t.IsEmpty() && name == SheetName(data[i].0)
  {
    if |data| > 0 {
      var init := data[..|data| - 1];
      WorkbookSheets(init, name, t);
      assert forall i :: 0 <= i < |init| ==> init[i] == data[i];
      if (name, t) in Workbook(data) && (name, t) !in Workbook(init) {
        assert (name, t) in SheetFor(data[|data| - 1]);
      }
    }
  }

  /** When every table has rows, one sheet is written per entry, in order. */
  lemma {:induction false} WorkbookKeepsAll(data: seq<(string, Table)>)
    requires forall i :: 0 <= i < |data| ==> !data[i].1.IsEmpty()
    ensures |Workbook(data)| == |data|
    ensures forall k :: 0 <= k < |data| ==> Workbook(data)[k] == (SheetName(data[k].0), data[k].1)
  {
    if |data| > 0 {
      WorkbookKeepsAll(data[..|data| - 1]);
    }
  }

  /** save_to_excel's loop over the scraped data. */
  method SaveToExcel(data: seq<(string, Table)>) returns (sheets: seq<(string, Table)>)
    ensures sheets == Workbook(data)
  {
    sheets := [];
    var i := 0;
    while i < |data|
      invariant 0 <= i <= |data|
      invariant sheets == Workbook(data[..i])
    {
      var (tab, df) := data[i];
      if !df.IsEmpty() {
        sheets := sheets + [(SheetName(tab), df)];
      }
      assert data[..i + 1][..i] == data[..i];
      i := i + 1;
    }
    assert data[..|data|] == data;
  }

  /** The display names of the nine tabs, in the order they are scraped. */
  const Tabs: seq<string> := ["Overview", "Performance", "Valuation", "Dividends", "Profitability",
                              "Income Statement", "Balance Sheet", "Cash Flow", "Technicals"]

  /** No tab name is cut, and the names are distinct, so no two tabs compete
      for one sheet. */
  lemma TabSheetNames()
    ensures forall k :: 0 <= k < |Tabs| ==> SheetName(Tabs[k]) == Tabs[k]
    ensures forall j, k :: 0 <= j < k < |Tabs| ==> SheetName(Tabs[j]) != SheetName(Tabs[k])
  {
    assert forall k :: 0 <= k < |Tabs| ==> |Tabs[k]| <= SheetNameLimit;
    assert forall j, k :: 0 <= j < k < |Tabs| ==> Tabs[j][0] != Tabs[k][0] || |Tabs[j]| != |Tabs[k]|;
  }

  /** A sheet name longer than the limit is cut to its first 31 characters. */
  lemma LongNameExample()
    ensures SheetName("Income Statement (Quarterly, Restated)") == "Income Statement (Quarterly, Re"
  {
  }
}
