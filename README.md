# TradingView US stock screener scraper: the deterministic core

`stock_usa.py` drives a browser over the TradingView US stock screener. It
clicks through nine tabs and presses "Load More" until every row is loaded.
It reads each table, cleans the ticker column and writes an Excel workbook
with formatted cells. This project models, and proves properties of, the
parts of that script that are plain logic over strings, lists and counters:

- `text.dfy` (`Text`): Python's `str.strip()` and JavaScript's `trim()` with
  their own whitespace sets, splitting on a character, joining,
  `str.lower()`, `str.isupper()` and `str.replace(c, '')`.
- `frames.dfy` (`Frames`): a DataFrame as column names plus rows of cells,
  where a cell is missing or a string.
- `tickers.dfy` (`Tickers`): `split_ticker_column` and its classifier
  `extract_ticker_parts`, including the regular expression
  `^([A-Z]{1,5})\s+(.+)$`. There is a pure specification `SplitTickers`, and
  an in-place `DataFrame.SplitTickerColumn` that is proved equal to it.
- `extraction.dfy` (`Extraction`): the in-page reading of a row's first cell.
  It also covers header renaming, fitting the headers to the widest row, row
  padding and the final split in `extract_table_data_fast`.
- `pagination.dfy` (`Pagination`): the "Load More" loop of `load_all_rows`.
  The loop is a state machine driven by a sequence of probe outcomes. A
  `Scraper` object holds `total_rows_loaded`.
- `formatting.dfy` (`Formatting`): the column-width rule and the branch each
  data cell takes in `format_excel_professionally`, with the magnitude tiers.
  A `Worksheet` object's methods apply both to a whole sheet.
- `export.dfy` (`Export`): which tables `save_to_excel` writes, the 31-character
  limit on sheet names, and the nine tab names.

Python's `float()` is a parameter `parse: string -> Option<real>` wherever a
cell is converted. The browser is represented by the probe outcomes and the
row counts passed to `LoadAllRows`.

Two behaviours of the code a reader may not expect:

- A cell with `%` whose number does not parse keeps its text. It is still
  right-aligned, not left-aligned like other text (stock_usa.py:376-377).
- The "regular numbers" branch (stock_usa.py:407-415) can never run. Its test
  is one of the two alternatives of the currency test just above it.

## Model

| member | source | states |
|---|---|---|
| Text.StripSpec | stock_usa.py:244 | `strip()` keeps one contiguous piece of the text, removes only whitespace around it, and leaves nothing more to strip |
| Text.SplitSingle | stock_usa.py:238-239 | splitting on a line break gives two or more lines exactly when the text contains a line break |
| Text.JoinSplit | stock_usa.py:238-240 | joining the lines back with the separator gives the original text |
| Text.JoinSplitReplace | stock_usa.py:240 | joining the pieces of a split with another character replaces every separator of the text by that character, e.g. line breaks by spaces |
| Text.RemoveKeeps | stock_usa.py:380-383 | `replace(c, '')` keeps every other character and adds none |
| Tickers.MatchTickerPrefixSpec | stock_usa.py:249-251 | the regex model matches exactly the lines made of 1 to 5 capitals, whitespace, then at least one more character |
| Tickers.ClassifyLineLossless | stock_usa.py:244-253 | a single line is either kept whole with an empty name, or split into 1–5 capitals and the non-empty text after the whitespace |
| Tickers.SurroundingSpaceIgnored | stock_usa.py:244-253 | whitespace around text without a line break never changes its parts |
| Tickers.LineBreakParts | stock_usa.py:238-240 | a first line, a line break and the rest give the stripped first line and, as the name, the rest with every further line break turned into a space, stripped |
| Tickers.PartsStripped | stock_usa.py:233-253 | both parts returned for any cell, missing or empty included, have no surrounding whitespace |
| Tickers.TwoLineParts | stock_usa.py:238-240 | a stripped ticker line and a stripped name line come back unchanged as the two parts |
| Tickers.ShortUpperParts | stock_usa.py:244-246 | a stripped upper-case line of at most five characters is a ticker with an empty name |
| Tickers.PrefixMatch | stock_usa.py:249-251 | the pattern splits 1–5 capitals, a space and a stripped name into the capitals and the name |
| Tickers.PrefixParts | stock_usa.py:245-251 | 1–5 capitals, a space and a stripped name that make more than five characters split at the space |
| Tickers.NewlineExample | stock_usa.py:237-240 | `"AAPL\nApple Inc."` gives `("AAPL", "Apple Inc.")` |
| Tickers.ShortTickerExample | stock_usa.py:242-246 | `"MSFT"` gives `("MSFT", "")` |
| Tickers.PatternExample | stock_usa.py:248-251 | `"AAPL Apple Inc."` gives `("AAPL", "Apple Inc.")` |
| Tickers.WithNameColumn | stock_usa.py:255-256 | a missing Company Name column is inserted at position 1, and the Ticker column and row count are kept |
| Tickers.DataFrame.InsertCompanyName | stock_usa.py:255-256 | inserting the column row by row gives the frame with Company Name at position 1 and an empty string in every row |
| Tickers.DataFrame.RewriteTickerCells | stock_usa.py:258-260 | the columns are unchanged, and every row has its Ticker and Company Name cells replaced by the parts of its Ticker cell |
| Tickers.SplitTickers | stock_usa.py:223-262 | the frame is returned unchanged when there is no Ticker column or Company Name already holds a value; otherwise both columns are present; the row count is kept and every row stays as wide as the header |
| Tickers.SplitTickersCells | stock_usa.py:255-260 | without the guard, the column list gains only Company Name at position 1, if it was missing; in each row the Ticker and Company Name cells become the parts of the old Ticker cell and every other cell is kept |
| Tickers.SplitTickersKeepsOtherColumns | stock_usa.py:258-260 | when Company Name already existed, cells outside the two rewritten columns are the input's |
| Tickers.SplitTickersIdempotent | stock_usa.py:228-230 | running the splitter on its own output changes nothing |
| Tickers.DataFrame.SplitTickerColumn | stock_usa.py:223-262 | the in-place column insertion and row-by-row rewrite leave the frame equal to `SplitTickers` of the old frame |
| Extraction.ReadFirstCell | stock_usa.py:149-168 | the first cell always gives exactly two values; with both sub-elements present they are the trimmed symbol and description texts |
| Extraction.ReadFirstCellFallback | stock_usa.py:158-167 | without sub-elements, the trimmed text is the lines it was split into, rejoined; text without a line break is kept whole with an empty name; otherwise the symbol has no line break |
| Extraction.ReadFirstCellLines | stock_usa.py:158-163 | without sub-elements, a trimmed text made of a first line, a line break and the rest gives the trimmed first line and the rest with line breaks turned into spaces, trimmed |
| Extraction.ReadRow | stock_usa.py:143-172 | a row with cells gives one value more than it has cells: the first cell's two values, then every other cell's trimmed text in order |
| Extraction.ReadRows | stock_usa.py:142-177 | no more rows than the table has, and every row returned has at least two values |
| Extraction.ReadRowsMembership | stock_usa.py:142-177 | a row is returned exactly when the table row has a cell, as the values read from its cells |
| Extraction.ReadRowsKeepsAll | stock_usa.py:142-177 | when every table row has a cell, one row is returned per table row, in order, each read from its cells |
| Extraction.AdjustHeaders | stock_usa.py:187-191 | a leading `ticker`/`symbol` header, in any case, becomes Ticker, Company Name followed by the remaining headers, one longer; any other header list is unchanged |
| Extraction.FitHeaders | stock_usa.py:198-202 | the result has exactly the width; original names are kept at their positions, and missing position i is named `Column_i` |
| Extraction.MaxWidth | stock_usa.py:196 | the result bounds every row's length and is attained by some row |
| Extraction.BuildFrame | stock_usa.py:195-207 | the frame is rectangular, has one row per input row, and is as wide as the widest row |
| Extraction.BuildFramePadding | stock_usa.py:204-207 | each original row is a prefix of its padded row, the rest is empty strings, and no row is cut |
| Extraction.ExtractTable | stock_usa.py:184-215 | empty headers or rows give the empty frame; otherwise one row per input row; always rectangular |
| Extraction.ExtractTableSkipsSplit | stock_usa.py:209-211 | with a ticker header and rows of at least two values, the splitter leaves the built frame as it is |
| Extraction.SymbolHeaderExample | stock_usa.py:188-189 | a `symbol` header becomes Ticker, Company Name, and the other headers follow |
| Extraction.TickerHeaderExample | stock_usa.py:188-189 | an upper-case `TICKER` header is renamed too |
| Pagination.Drive | stock_usa.py:88-116 | the loop never exceeds 150 clicks, and it consumes at most two probes per click plus two, so it ends |
| Pagination.DriveCountsClicks | stock_usa.py:98-114 | the clicks counted are exactly the successful clicks among the probes consumed; a timeout never counts |
| Pagination.DriveStops | stock_usa.py:94-116 | the loop stops at the budget exactly when 150 clicks were made; otherwise the last probe was an invisible button, another error, or a second timeout in a row; every earlier probe was a click or a timeout |
| Pagination.AlreadyLoadedBounds | stock_usa.py:82-86 | the skip always applies while no rows are recorded, and never applies below 95% of the recorded total |
| Pagination.Scraper.LoadAllRows | stock_usa.py:79-123 | a skipped tab clicks nothing and keeps the total; otherwise the clicks are those of `Drive` and the total becomes the larger of itself and the final count; the total never decreases |
| Formatting.LongestLength | stock_usa.py:345-350 | the result bounds every value's length and is attained by a value, or is 0 |
| Formatting.ColumnWidth | stock_usa.py:341-353 | the width is the longest value plus two, capped at 50; it is between 2 and 50 and fits every value with two to spare unless capped |
| Formatting.ColumnWidths | stock_usa.py:341-353 | every column of a sheet gets the width rule applied to its values |
| Formatting.Classify | stock_usa.py:360-419 | empty cells are untouched; columns 1–2 are only aligned; a `%` anywhere takes precedence; the regular-numbers branch is never taken |
| Formatting.MagnitudeFormatBands | stock_usa.py:386-394 | B, M, K and plain are exactly the magnitude bands ≥1e9, [1e6,1e9), [1e3,1e6) and below 1e3, and a larger magnitude never gets a smaller tier |
| Formatting.PlainFallbackFails | stock_usa.py:397-405 | when `float()` rejects `$`, the fallback inside the currency branch fails whenever the currency parse failed |
| Formatting.GroupedFormatUnused | stock_usa.py:380-415 | no cell ever gets the `#,##0.00` format; every converted cell is in column 3 or later and right-aligned |
| Formatting.CurrencyTextGrouped | stock_usa.py:383 | a dollar amount with two thousands separators reaches `float()` as its bare digits |
| Formatting.DollarAmountCell | stock_usa.py:380-396 | a dollar amount with two thousands separators past column 2 is stored as the number of its bare digits, with its magnitude format, right-aligned |
| Formatting.DollarCellBranch | stock_usa.py:360-380 | a stripped cell past column 2 with a `$` and no `%` takes the currency branch |
| Formatting.CurrencyExampleBranch | stock_usa.py:360-380 | `"$1,234,567.00"` in column 3 takes the currency branch |
| Formatting.CurrencyExampleText | stock_usa.py:383 | `"$1,234,567.00"` reaches `float()` as `"1234567.00"` |
| Formatting.CurrencyExample | stock_usa.py:380-396 | `"$1,234,567.00"` becomes 1234567.00 in the millions format |
| Formatting.PercentCellNumber | stock_usa.py:369-375 | a number followed by `%` past column 2 is stored as a hundredth of the number, in the percent format, right-aligned |
| Formatting.PercentTextNumber | stock_usa.py:372 | a number followed by `%` reaches `float()` as the number |
| Formatting.PercentExampleBranch | stock_usa.py:360-370 | `"12.5%"` in column 3 takes the percent branch |
| Formatting.PercentExample | stock_usa.py:370-375 | `"12.5%"` becomes 0.125 in the percent format |
| Formatting.FormatRow | stock_usa.py:356-358 | formatting a row keeps its length |
| Formatting.FormatCells | stock_usa.py:356-419 | the loop over one row produces `FormatRow` of that row |
| Formatting.Worksheet.constructor | stock_usa.py:446 | the sheet holds a header row of the column names and one row of text per frame row, with missing values empty |
| Formatting.Worksheet.AutoSizeColumns | stock_usa.py:340-353 | every column gets the width rule applied to its values, header included, and the cells are unchanged |
| Formatting.Worksheet.FormatDataCells | stock_usa.py:355-419 | the header row is kept and every data row is formatted cell by cell, columns numbered from 1 |
| Formatting.Worksheet.FormatSheet | stock_usa.py:329-419 | widths come from the text as loaded, then the data cells are formatted |
| Export.SheetName | stock_usa.py:445 | the name is at most 31 characters and a prefix of the tab name, and is the tab name exactly when that is short enough |
| Export.Workbook | stock_usa.py:442-446 | no more sheets than entries; every sheet has a table with rows and a name of at most 31 characters |
| Export.WorkbookSheets | stock_usa.py:443-446 | a sheet is written exactly for each entry with a non-empty table, under that entry's truncated name |
| Export.WorkbookKeepsAll | stock_usa.py:443-446 | when every table has rows, one sheet is written per entry, in order |
| Export.SaveToExcel | stock_usa.py:442-447 | the writing loop produces exactly the sheets `Workbook` describes |
| Export.TabSheetNames | stock_usa.py:289-299 | none of the nine tab names is cut, and no two of them collide as sheet names |
| Export.LongNameExample | stock_usa.py:445 | a name over 31 characters keeps its first 31 |

## Left out

- Browser work is not modelled. This covers `start`, `close`, `load_page`,
  `click_tab`, `get_current_row_count`, `scrape_tab`, `scrape_all_tabs` and
  `run`, including waits, selectors, and asynchronous calls. The row counts
  and "Load More" outcomes these produce are parameters.
- The DOM queries inside the page script are not modelled. Only the treatment
  of the text it reads is modelled.
- Python's `float()` is the abstract parameter `parse`. Float rounding,
  including in `num / 100`, is not modelled.
- `parse` yields finite reals only. `float()` also accepts `"inf"` and
  `"nan"`, so `"$inf"` gets the billions format and `"nan%"` becomes NaN;
  neither is modelled.
- Pagination.AlreadyLoaded: `current_count >= total_rows_loaded * 0.95` is
  modelled over integers as `20 * count >= 19 * total`, ignoring the rounding
  of 0.95 in floating point.
- Text.Lower: lowers ASCII letters only. Other letters with a lower-case form
  are not changed, so the header test may differ on, e.g., the Kelvin sign.
- Text.IsUpper: treats only ASCII letters as cased.
- Formatting.LooksNumeric: treats only ASCII digits as digits.
- Tickers.MatchTickerPrefix: is defined only for text without a line break.
  That is the only text the classifier passes to the regular expression.
- Frames.IndexOf: finds a column name at its first occurrence. pandas would
  return several columns for a repeated name; repeated names are not modelled.
- Styling is not modelled: fill, font, border, header alignment, freeze
  panes, autofilter, header row height, and loading and saving the file.
- Number values are not modelled: `to_excel` writes each value as text, and
  the model reads every cell as text.
- Export.Workbook: when two truncated sheet names collide, the writer reuses
  the existing sheet of that name and the second table is written over the
  first. The model lists both sheets instead. `Export.TabSheetNames` shows
  the nine tab names never collide.
- Progress messages and timing are not modelled.
