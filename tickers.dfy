/** The ticker / company-name column splitter of stock_usa.py:
    `split_ticker_column` and its classifier `extract_ticker_parts`. */
module Tickers {
  import opened Text
  import opened Frames

  /** A (ticker, company name) pair. */
  datatype Parts = Parts(ticker: string, name: string)

  const TickerColumn: string := "Ticker"
  const NameColumn: string := "Company Name"

  /** Length of the run of ASCII capitals at the front of s. */
  function CapitalRun(s: string): (n: nat)
    ensures n <= |s|
    ensures forall k :: 0 <= k < n ==> IsAsciiUpper(s[k])
    ensures n < |s| ==> !IsAsciiUpper(s[n])
  {
    if |s| > 0 && IsAsciiUpper(s[0]) then 1 + CapitalRun(s[1..]) else 0
  }

  /** re.match(r'^([A-Z]{1,5})\s+(.+)$', t) on a line-break-free t: the groups
      of the match, if any. The capitals must be the whole leading run of
      capitals; `\s+` is greedy but leaves `.+` at least one character. */
  function MatchTickerPrefix(t: string): Option<Parts>
    requires '\n' !in t
  {
    var k := CapitalRun(t);
    if 1 <= k <= 5 && k < |t| && IsPySpace(t[k]) then
      var w := LeadingSpaces(Py, t[k..]);
      if k + w < |t| then Some(Parts(t[..k], t[k + w..]))
      else if w >= 2 then Some(Parts(t[..k], t[|t| - 1..]))
      else None
    else None
  }

  /** The language of the pattern: 1 to 5 capitals, whitespace, then at least
      one character. */
  predicate PatternSplit(t: string, p: int, q: int) {
    1 <= p <= 5 && p < q < |t| &&
    (forall k :: 0 <= k < p ==> IsAsciiUpper(t[k])) &&
    (forall k :: p <= k < q ==> IsPySpace(t[k]))
  }

  /** The groups of a match: the capitals, whitespace from the end of the
      capitals up to q, and a non-empty tail of t from q on. */
  lemma MatchGroups(t: string) returns (q: int)
    requires '\n' !in t && MatchTickerPrefix(t).Some?
    ensures var m := MatchTickerPrefix(t).value;
      PatternSplit(t, |m.ticker|, q) && m.ticker == t[..|m.ticker|] && m.name == t[q..]
  {
    var k := CapitalRun(t);
    var w := LeadingSpaces(Py, t[k..]);
    q := if k + w < |t| then k + w else |t| - 1;
    forall j | k <= j < q ensures IsPySpace(t[j]) {
      assert t[j] == t[k..][j - k];
    }
  }

  /** Every string of the pattern's language is matched. */
  lemma MatchComplete(t: string, p: int, q: int)
    requires '\n' !in t && PatternSplit(t, p, q)
    ensures MatchTickerPrefix(t).Some?
  {
    assert !IsAsciiUpper(t[p]);
    var k := CapitalRun(t);
    assert p == k;
    var w := LeadingSpaces(Py, t[k..]);
    assert t[k..][0] == t[k];
    if w >= |t| - k {
      assert t[k..][1] == t[k + 1];
    }
  }

  /** The regex model matches exactly the strings of the pattern's language. */
  lemma MatchTickerPrefixSpec(t: string)
    requires '\n' !in t
    ensures MatchTickerPrefix(t).Some? <==> exists p, q :: PatternSplit(t, p, q)
  {
    if MatchTickerPrefix(t).Some? {
      var q := MatchGroups(t);
      assert PatternSplit(t, |MatchTickerPrefix(t).value.ticker|, q);
    } else {
      forall p, q | PatternSplit(t, p, q) ensures false {
        MatchComplete(t, p, q);
      }
    }
  }

  /** The classifier on one stripped line: kept whole when it is at most five
      characters and upper-case, split at the pattern when it matches, and
      kept whole otherwise. */
  function ClassifyLine(t: string): Parts
    requires '\n' !in t
  {
    if |t| <= 5 && IsUpper(t) then Parts(t, "")
    else
      match MatchTickerPrefix(t)
      case Some(m) => m
      case None => Parts(t, "")
  }

  /** extract_ticker_parts: the classifier applied to each Ticker cell.
      Missing or empty text gives two empty parts. Text with a line break
      gives its first line and the remaining lines joined by a space, both
      stripped. Any other text is classified as one stripped line. */
  function ExtractTickerParts(c: Cell): Parts {
    match c
    case Null => Parts("", "")
    case Str(text) =>
      if text == "" then Parts("", "")
      else
        var lines := Split(text, '\n');
        if |lines| >= 2 then Parts(Strip(Py, lines[0]), Strip(Py, Join(lines[1..], ' ')))
        else
          SplitSingle(text, '\n');
          StripKeepsOut(Py, text, '\n');
          ClassifyLine(Strip(Py, text))
  }

  /** On one line the classifier loses nothing but whitespace: either the name
      is empty and the ticker is the whole line, or the line is the ticker
      (1 to 5 capitals), some whitespace, and a non-empty name. */
  lemma ClassifyLineLossless(t: string)
    requires '\n' !in t
    ensures var p := ClassifyLine(t);
      (p.name == "" && p.ticker == t) ||
      (exists q :: PatternSplit(t, |p.ticker|, q) && p.ticker == t[..|p.ticker|] && p.name == t[q..])
  {
    if !(|t| <= 5 && IsUpper(t)) && MatchTickerPrefix(t).Some? {
      var q := MatchGroups(t);
    }
  }

  /** Without a line break the parts of a cell are those of its stripped text. */
  lemma SingleLineParts(text: string)
    requires '\n' !in text
    ensures '\n' !in Strip(Py, text)
    ensures ExtractTickerParts(Str(text)) == ClassifyLine(Strip(Py, text))
  {
    SplitSingle(text, '\n');
    StripKeepsOut(Py, text, '\n');
    if text == "" {
      assert LeadingSpaces(Py, text) == 0;
      assert Strip(Py, text) == "";
    }
  }

  /** With a line break the parts are the first line and the rest, stripped. */
  lemma MultiLineParts(text: string)
    requires '\n' in text
    ensures var lines := Split(text, '\n');
      ExtractTickerParts(Str(text)) ==
        Parts(Strip(Py, lines[0]), Strip(Py, Join(lines[1..], ' ')))
  {
    SplitSingle(text, '\n');
  }

  /** Text made of a first line, a line break and anything after it gives the
      stripped first line as the ticker and, as the name, the rest with every
      further line break turned into a space, stripped. */
  lemma LineBreakParts(a: string, b: string)
    requires '\n' !in a
    ensures ExtractTickerParts(Str(a + "\n" + b)) == Parts(Strip(Py, a), Strip(Py, ReplaceChar(b, '\n', ' ')))
  {
    var text := a + "\n" + b;
    assert text == a + ['\n'] + b;
    SplitFirstPiece(a, b, '\n');
    assert '\n' in text by { assert text[|a|] == '\n'; }
    MultiLineParts(text);
    var lines := Split(text, '\n');
    assert lines[0] == a && lines[1..] == Split(b, '\n');
    JoinSplitReplace(b, '\n', ' ');
  }

  /** Whitespace around single-line text never changes its parts. */
  lemma SurroundingSpaceIgnored(text: string)
    requires '\n' !in text
    ensures ExtractTickerParts(Str(text)) == ExtractTickerParts(Str(Strip(Py, text)))
  {
    var t := Strip(Py, text);
    SingleLineParts(text);
    SingleLineParts(t);
    StripSpec(Py, text);
    StripStripped(Py, t);
  }

  /** Both parts come out of a line classification stripped when the line is. */
  lemma ClassifyLineStripped(t: string)
    requires '\n' !in t && IsStripped(Py, t)
    ensures IsStripped(Py, ClassifyLine(t).ticker) && IsStripped(Py, ClassifyLine(t).name)
  {
    if !(|t| <= 5 && IsUpper(t)) && MatchTickerPrefix(t).Some? {
      MatchStripped(t);
    }
  }

  /** Both groups of a match on a stripped line are stripped. */
  lemma MatchStripped(t: string)
    requires '\n' !in t && IsStripped(Py, t) && MatchTickerPrefix(t).Some?
    ensures IsStripped(Py, MatchTickerPrefix(t).value.ticker) && IsStripped(Py, MatchTickerPrefix(t).value.name)
  {
    var m := MatchTickerPrefix(t).value;
    var q := MatchGroups(t);
    assert m.ticker[0] == t[0] && m.ticker[|m.ticker| - 1] == t[|m.ticker| - 1];
    assert m.name[0] == t[q] && m.name[|m.name| - 1] == t[|t| - 1];
  }

  /** Both parts of any cell come out stripped. */
  lemma PartsStripped(c: Cell)
    ensures IsStripped(Py, ExtractTickerParts(c).ticker)
    ensures IsStripped(Py, ExtractTickerParts(c).name)
  {
    if c.Str? && c.s != "" {
      var lines := Split(c.s, '\n');
      if |lines| >= 2 {
        StripSpec(Py, lines[0]);
        StripSpec(Py, Join(lines[1..], ' '));
      } else {
        SplitSingle(c.s, '\n');
        SingleLineParts(c.s);
        StripSpec(Py, c.s);
        ClassifyLineStripped(Strip(Py, c.s));
      }
    }
  }

  /** `df['Company Name'].notna().any()` for the column at position j. */
  predicate Populated(t: Table, j: nat)
    requires t.Rectangular() && j < |t.columns|
  {
    exists i :: 0 <= i < |t.rows| && t.rows[i][j] != Null
  }

  /** The guard of split_ticker_column: no Ticker column, or a Company Name
      column that already holds a value. */
  predicate SplitSkipped(t: Table)
    requires t.Rectangular()
  {
    TickerColumn !in t.columns ||
    (NameColumn in t.columns && Populated(t, IndexOf(t.columns, NameColumn)))
  }

  /** `df.insert(1, 'Company Name', '')`. */
  function InsertNameColumn(t: Table): (r: Table)
    requires t.Rectangular() && |t.columns| >= 1
    ensures r.Rectangular()
  {
    Table(InsertAt(t.columns, 1, NameColumn),
          seq(|t.rows|, i requires 0 <= i < |t.rows| => InsertAt(t.rows[i], 1, Str(""))))
  }

  /** One row after the Ticker (position ti) and Company Name (position ci)
      cells are overwritten with the parts of the Ticker cell. */
  function RewriteRow(row: seq<Cell>, ti: nat, ci: nat): seq<Cell>
    requires ti < |row| && ci < |row|
  {
    var p := ExtractTickerParts(row[ti]);
    row[ti := Str(p.ticker)][ci := Str(p.name)]
  }

  /** The frame after the Company Name column is made sure of: itself when it
      has one, and with an empty one inserted at position 1 otherwise. */
  function WithNameColumn(t: Table): (u: Table)
    requires t.Rectangular() && TickerColumn in t.columns
    ensures u.Rectangular() && |u.rows| == |t.rows|
    ensures TickerColumn in u.columns && NameColumn in u.columns
    ensures NameColumn !in t.columns ==> IndexOf(u.columns, NameColumn) == 1
  {
    if NameColumn in t.columns then t
    else
      var u := InsertNameColumn(t);
      var k := IndexOf(t.columns, TickerColumn);
      assert u.columns[if k == 0 then 0 else k + 1] == TickerColumn;
      assert u.columns[1] == NameColumn;
      assert u.columns[0] == t.columns[0] != NameColumn;
      u
  }

  /** split_ticker_column as a function of the frame: the frame itself when the
      guard holds, otherwise the frame with a Company Name column whose rows
      have their Ticker and Company Name cells rewritten. */
  function SplitTickers(t: Table): (r: Table)
    requires t.Rectangular()
    ensures r.Rectangular() && |r.rows| == |t.rows|
    ensures SplitSkipped(t) ==> r == t
    ensures !SplitSkipped(t) ==> NameColumn in r.columns && TickerColumn in r.columns
  {
    if SplitSkipped(t) then t
    else
      var u := WithNameColumn(t);
      var ti, ci := IndexOf(u.columns, TickerColumn), IndexOf(u.columns, NameColumn);
      Table(u.columns, seq(|u.rows|, i requires 0 <= i < |u.rows| => RewriteRow(u.rows[i], ti, ci)))
  }

  /** What the splitter does when its guard does not hold: Company Name is
      inserted at position 1 when it was missing and no other column moves or
      changes name; in each row the Ticker and Company Name cells become the
      parts of the old Ticker cell and every other cell stays as it was. */
  lemma SplitTickersCells(t: Table)
    requires t.Rectangular() && !SplitSkipped(t)
    ensures var r, u := SplitTickers(t), WithNameColumn(t);
      && r.columns == (if NameColumn in t.columns then t.columns else InsertAt(t.columns, 1, NameColumn))
      && (NameColumn !in t.columns ==> IndexOf(r.columns, NameColumn) == 1)
      && var ti, ci := IndexOf(r.columns, TickerColumn), IndexOf(r.columns, NameColumn);
      forall i, j :: 0 <= i < |r.rows| && 0 <= j < |r.columns| ==>
        r.rows[i][j] ==
          if j == ti then Str(ExtractTickerParts(u.rows[i][ti]).ticker)
          else if j == ci then Str(ExtractTickerParts(u.rows[i][ti]).name)
          else u.rows[i][j]
  {
  }

  /** Rows untouched by the insertion: when Company Name already existed, the
      cells outside the two rewritten columns are those of the input. */
  lemma SplitTickersKeepsOtherColumns(t: Table, i: nat, j: nat)
    requires t.Rectangular() && !SplitSkipped(t) && NameColumn in t.columns
    requires i < |t.rows| && j < |t.columns|
    requires t.columns[j] != TickerColumn && t.columns[j] != NameColumn
    ensures SplitTickers(t).rows[i][j] == t.rows[i][j]
  {
  }

  /** Running the splitter on its own output changes nothing: after one run
      either the guard held, or the frame has a Company Name column whose cells
      are all strings (so it is populated whenever there is a row, and with no
      rows there is nothing to rewrite). */
  lemma SplitTickersIdempotent(t: Table)
    requires t.Rectangular()
    ensures SplitTickers(SplitTickers(t)) == SplitTickers(t)
  {
    var r := SplitTickers(t);
    if !SplitSkipped(t) && |r.rows| > 0 {
      var ci := IndexOf(r.columns, NameColumn);
      assert r.rows[0][ci] != Null;
      assert SplitSkipped(r);
    } else if !SplitSkipped(t) {
      var r2 := SplitTickers(r);
      assert r2.columns == r.columns;
      assert r2.rows == [] == r.rows;
    }
  }

  /** A mutable DataFrame on which split_ticker_column works in place. */
  class DataFrame {
    var columns: seq<string>
    var rows: seq<seq<Cell>>

    ghost predicate Valid()
      reads this
    {
      Table(columns, rows).Rectangular()
    }

    function Value(): Table
      reads this
    {
      Table(columns, rows)
    }

    constructor (t: Table)
      requires t.Rectangular()
      ensures Valid() && Value() == t
    {
      columns := t.columns;
      rows := t.rows;
    }

    /** `df.insert(1, 'Company Name', '')`, row by row. */
    method InsertCompanyName()
      requires Valid() && |columns| >= 1
      modifies this
      ensures Valid() && Value() == InsertNameColumn(old(Value()))
    {
      ghost var t := Value();
      var inserted: seq<seq<Cell>> := [];
      var i := 0;
      while i < |rows|
        invariant 0 <= i <= |rows| && Value() == t
        invariant inserted == InsertNameColumn(t).rows[..i]
      {
        inserted := inserted + [InsertAt(rows[i], 1, Str(""))];
        i := i + 1;
      }
      columns := InsertAt(columns, 1, NameColumn);
      rows := inserted;
    }

    /** The two column assignments: in every row the cell at ti becomes the
        ticker part of that cell and the cell at ci the name part. */
    method RewriteTickerCells(ti: nat, ci: nat)
      requires Valid() && ti < |columns| && ci < |columns|
      modifies this
      ensures Valid() && columns == old(columns) && |rows| == |old(rows)|
      ensures forall i :: 0 <= i < |rows| ==> rows[i] == RewriteRow(old(rows[i]), ti, ci)
    {
      var rewritten: seq<seq<Cell>> := [];
      var i := 0;
      while i < |rows|
        invariant 0 <= i <= |rows| && columns == old(columns) && rows == old(rows)
        invariant |rewritten| == i
        invariant forall k :: 0 <= k < i ==> rewritten[k] == RewriteRow(rows[k], ti, ci)
      {
        var p := ExtractTickerParts(rows[i][ti]);
        rewritten := rewritten + [rows[i][ti := Str(p.ticker)][ci := Str(p.name)]];
        i := i + 1;
      }
      rows := rewritten;
    }

    /** split_ticker_column: inserts the Company Name column when missing,
        then rewrites the Ticker and Company Name cells row by row. */
    method SplitTickerColumn()
      requires Valid()
      modifies this
      ensures Valid() && Value() == SplitTickers(old(Value()))
    {
      if TickerColumn !in columns {
        return;
      }
      if NameColumn in columns && Populated(Value(), IndexOf(columns, NameColumn)) {
        return;
      }
      ghost var t := Value();
      if NameColumn !in columns {
        InsertCompanyName();
      }
      assert Value() == WithNameColumn(t);
      var ti, ci := IndexOf(columns, TickerColumn), IndexOf(columns, NameColumn);
      RewriteTickerCells(ti, ci);
      assert Value() == SplitTickers(t);
    }
  }

  /** A ticker line and a name line, each without surrounding whitespace,
      come back as the two parts. */
  lemma TwoLineParts(ticker: string, name: string)
    requires '\n' !in ticker && '\n' !in name
    requires IsStripped(Py, ticker) && IsStripped(Py, name)
    ensures ExtractTickerParts(Str(ticker + "\n" + name)) == Parts(ticker, name)
  {
    var text := ticker + "\n" + name;
    SplitFirstPiece(ticker, name, '\n');
    SplitPiece(name, '\n');
    assert '\n' in text by { assert text[|ticker|] == '\n'; }
    MultiLineParts(text);
    StripStripped(Py, ticker);
    StripStripped(Py, name);
  }

  /** "AAPL\nApple Inc." splits at the line break. */
  lemma NewlineExample()
    ensures ExtractTickerParts(Str("AAPL\nApple Inc.")) == Parts("AAPL", "Apple Inc.")
  {
    assert "AAPL" + "\n" + "Apple Inc." == "AAPL\nApple Inc.";
    TwoLineParts("AAPL", "Apple Inc.");
  }

  /** "MSFT" is a short upper-case ticker with no name. */
  lemma ShortTickerExample()
    ensures ExtractTickerParts(Str("MSFT")) == Parts("MSFT", "")
  {
    assert IsAsciiUpper("MSFT"[0]);
    assert IsUpper("MSFT");
    ShortUpperParts("MSFT");
  }

  /** A stripped line of at most five characters that is upper-case is a
      ticker with no name. */
  lemma ShortUpperParts(t: string)
    requires '\n' !in t && IsStripped(Py, t) && |t| <= 5 && IsUpper(t)
    ensures ExtractTickerParts(Str(t)) == Parts(t, "")
  {
    SingleLineParts(t);
    StripStripped(Py, t);
  }

  /** 1 to 5 capitals, one space and a name without surrounding whitespace
      make a stripped line that the pattern splits at the space. */
  lemma PrefixMatch(ticker: string, name: string)
    requires 1 <= |ticker| <= 5 && forall k :: 0 <= k < |ticker| ==> IsAsciiUpper(ticker[k])
    requires |name| > 0 && '\n' !in name && IsStripped(Py, name)
    ensures '\n' !in ticker + " " + name && IsStripped(Py, ticker + " " + name)
    ensures MatchTickerPrefix(ticker + " " + name) == Some(Parts(ticker, name))
  {
    var t := ticker + " " + name;
    var n := |ticker|;
    assert t[n] == ' ' && t[n + 1] == name[0];
    assert t[0] == ticker[0] && t[|t| - 1] == name[|name| - 1];
    var k := CapitalRun(t);
    assert k == n by {
      assert forall j :: 0 <= j < n ==> IsAsciiUpper(t[j]);
    }
    var w := LeadingSpaces(Py, t[k..]);
    assert w == 1 by {
      assert t[k..][0] == ' ' && t[k..][1] == name[0];
    }
    assert t[..k] == ticker && t[k + 1..] == name;
  }

  /** 1 to 5 capitals, one space and a name without surrounding whitespace,
      more than five characters in all, split at the space. */
  lemma PrefixParts(ticker: string, name: string)
    requires 1 <= |ticker| <= 5 && forall k :: 0 <= k < |ticker| ==> IsAsciiUpper(ticker[k])
    requires |name| > 0 && |ticker| + |name| >= 5 && '\n' !in name && IsStripped(Py, name)
    ensures ExtractTickerParts(Str(ticker + " " + name)) == Parts(ticker, name)
  {
    var t := ticker + " " + name;
    PrefixMatch(ticker, name);
    SingleLineParts(t);
    StripStripped(Py, t);
  }

  /** "AAPL Apple Inc." splits at the pattern. */
  lemma PatternExample()
    ensures ExtractTickerParts(Str("AAPL Apple Inc.")) == Parts("AAPL", "Apple Inc.")
  {
    assert "AAPL" + " " + "Apple Inc." == "AAPL Apple Inc.";
    PrefixParts("AAPL", "Apple Inc.");
  }
}
