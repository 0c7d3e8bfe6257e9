/**
 * The workbook job of the web application (`fund_app.py`). Its row
 * selection, enrichment, sort and highlighter are the ones of the
 * index-fund workbook and are reused from `EnhancedIndex`. What differs:
 * the fetcher adds its columns with `fund_df[col] = ""`, which accepts a
 * frame with no rows, so a fund type without eligible rows is skipped
 * rather than raising; and the width loop inside `update_fund_data`
 * measures every cell (None shows as "None") and sets no upper bound.
 */
module FundApp {
  import opened Common
  import opened EnhancedIndex

  function AnyCell(): CellValue -> bool {
    v => true
  }

  /** `max_length + 2` over every cell of the column. */
  function UncappedWidth(column: seq<CellValue>): int {
    Longest(column, AnyCell()) + 2
  }

  /** The width of one column, by the loop over its cells. */
  method ColumnWidth(column: seq<CellValue>) returns (w: int)
    ensures w == UncappedWidth(column)
  {
    var maxLength := 0;
    for k := 0 to |column|
      invariant maxLength == Longest(column[..k], AnyCell())
    {
      assert column[..k + 1][..k] == column[..k];
      if |Shown(column[k])| > maxLength {
        maxLength := |Shown(column[k])|;
      }
    }
    assert column[..|column|] == column;
    w := maxLength + 2;
  }

  /**
   * Every cell fits with two to spare, some cell of a non-empty column
   * fits exactly, and a column holding a missing value is at least
   * six wide.
   */
  lemma UncappedMeaning(column: seq<CellValue>)
    ensures forall k :: 0 <= k < |column| ==> |Shown(column[k])| + 2 <= UncappedWidth(column)
    ensures UncappedWidth(column) == 2 || exists k :: 0 <= k < |column| && |Shown(column[k])| + 2 == UncappedWidth(column)
    ensures Blank in column ==> UncappedWidth(column) >= 6
  {
    assert forall k :: 0 <= k < |column| ==> AnyCell()(column[k]);
    if Blank in column {
      var k :| 0 <= k < |column| && column[k] == Blank;
      assert |Shown(column[k])| == 4;
    }
  }

  lemma LongestWider(column: seq<CellValue>, p: CellValue -> bool, q: CellValue -> bool)
    requires forall v :: p(v) ==> q(v)
    ensures Longest(column, p) <= Longest(column, q)
  {
    var n := Longest(column, p);
    if n != 0 {
      var k :| 0 <= k < |column| && p(column[k]) && |Shown(column[k])| == n;
      assert q(column[k]);
    }
  }

  /**
   * The width here is never below the capped width of the index-fund
   * workbook, and the two agree when every cell is truthy and the
   * column is under 50 wide.
   */
  lemma CappedAtMost(column: seq<CellValue>)
    ensures CappedWidth(column) <= UncappedWidth(column)
    ensures (forall k :: 0 <= k < |column| ==> Truthy(column[k])) && UncappedWidth(column) < 50 ==>
      CappedWidth(column) == UncappedWidth(column)
  {
    LongestWider(column, TruthyMask(), AnyCell());
    if forall k :: 0 <= k < |column| ==> Truthy(column[k]) {
      var n := Longest(column, AnyCell());
      if n != 0 {
        var k :| 0 <= k < |column| && AnyCell()(column[k]) && |Shown(column[k])| == n;
        assert TruthyMask()(column[k]);
      }
    }
  }

  /**
   * `fetch_fund_data` of the web application. The result holds one
   * enriched row for each eligible row and nothing else, in descending
   * order of 近6月, and is empty exactly when no row is eligible.
   */
  method FetchFundData(ranking: Frame, fundName: string, lookup: Lookup) returns (out: Frame)
    ensures out.columns == WithColumn(WithColumn(ranking.columns, Founded), LatestScale)
    ensures SortedBy(out.rows, SixMonths)
    ensures multiset(out.rows) == multiset(EnrichAll(Filter(ranking.rows, EligibleMask(fundName)), lookup))
    ensures forall row :: row in out.rows <==>
      exists r :: r in ranking.rows && Eligible(r, fundName) && row == Enriched(r, lookup(r.code))
    ensures out.rows == [] <==> Filter(ranking.rows, EligibleMask(fundName)) == []
  {
    var df := SelectEligible(ranking.rows, fundName);
    out := EnrichAndSort(ranking.columns, df, lookup);
  }

  /** The fund types, in order, that have at least one eligible row and so get a sheet. */
  function TypesWritten(rows: seq<FundRow>, types: seq<string>): (r: seq<string>)
    ensures |r| <= |types|
  {
    if types == [] then []
    else
      TypesWritten(rows, types[..|types| - 1]) +
      (if Filter(rows, EligibleMask(types[|types| - 1])) != [] then [types[|types| - 1]] else [])
  }

  /** The loop over `fund_types`: one sheet per type with eligible rows, in that order. */
  method WriteTypeSheets(ranking: Frame, lookup: Lookup) returns (book: seq<Sheet>)
    ensures |book| == |TypesWritten(ranking.rows, FundTypes)|
    ensures forall k :: 0 <= k < |book| ==> SheetFor(book[k], ranking, lookup, TypesWritten(ranking.rows, FundTypes)[k])
  {
    book := WriteSheets(ranking, lookup, FundTypes);
  }

  /** The same loop over any list of fund types. */
  method WriteSheets(ranking: Frame, lookup: Lookup, types: seq<string>) returns (book: seq<Sheet>)
    ensures SheetsFor(book, ranking, lookup, TypesWritten(ranking.rows, types))
  {
    book := [];
    for n := 0 to |types|
      invariant SheetsFor(book, ranking, lookup, TypesWritten(ranking.rows, types[..n]))
    {
      TypesStep(ranking.rows, types, n);
      book := AddTypeSheet(book, ranking, lookup, types[n], TypesWritten(ranking.rows, types[..n]));
    }
    assert types[..|types|] == types;
  }

  lemma TypesStep(rows: seq<FundRow>, types: seq<string>, n: nat)
    requires n < |types|
    ensures TypesWritten(rows, types[..n + 1]) ==
      TypesWritten(rows, types[..n]) + (if Filter(rows, EligibleMask(types[n])) != [] then [types[n]] else [])
  {
    assert types[..n + 1][..n] == types[..n];
  }

  /**
   * One pass of the loop over `fund_types`: fetch the type's rows and save
   * them when there are any, so that the sheets written so far, for the
   * types `written`, gain this type's sheet exactly when it has eligible rows.
   */
  method AddTypeSheet(book: seq<Sheet>, ranking: Frame, lookup: Lookup, t: string, ghost written: seq<string>)
    returns (out: seq<Sheet>)
    requires SheetsFor(book, ranking, lookup, written)
    ensures SheetsFor(out, ranking, lookup, written + (if Filter(ranking.rows, EligibleMask(t)) != [] then [t] else []))
    ensures Filter(ranking.rows, EligibleMask(t)) == [] ==> out == book
  {
    var df := FetchFundData(ranking, t, lookup);
    out := SaveToExcel(book, df, SheetName(t));
    if Filter(ranking.rows, EligibleMask(t)) == [] {
      assert written + [] == written;
    } else {
      assert out == book + [out[|book|]];
      SheetsExtend(book, out[|book|], written, t, ranking, lookup);
    }
  }

  /**
   * `update_fund_data`: the sheet of each fund type with eligible rows,
   * then the width of every column of the sheets written, measured on the
   * cells `render` says the writer put there.
   */
  method UpdateFundData(ranking: Frame, lookup: Lookup, render: Sheet -> seq<seq<CellValue>>)
    returns (book: seq<Sheet>, widths: seq<seq<int>>)
    ensures |book| == |TypesWritten(ranking.rows, FundTypes)|
    ensures forall k :: 0 <= k < |book| ==> SheetFor(book[k], ranking, lookup, TypesWritten(ranking.rows, FundTypes)[k])
    ensures |widths| == |book|
    ensures forall s :: 0 <= s < |book| ==> WidthsOf(widths[s], render(book[s]))
  {
    book := WriteTypeSheets(ranking, lookup);
    widths := [];
    for s := 0 to |book|
      invariant |widths| == s
      invariant forall t :: 0 <= t < s ==> WidthsOf(widths[t], render(book[t]))
    {
      var sheet := SheetWidths(render(book[s]));
      widths := widths + [sheet];
    }
  }

  /** `widths` holds the width of each column, in order. */
  predicate WidthsOf(widths: seq<int>, columns: seq<seq<CellValue>>) {
    |widths| == |columns| && forall d :: 0 <= d < |columns| ==> widths[d] == UncappedWidth(columns[d])
  }

  /** The widths of the columns of one sheet, column by column. */
  method SheetWidths(columns: seq<seq<CellValue>>) returns (sheet: seq<int>)
    ensures WidthsOf(sheet, columns)
  {
    sheet := [];
    for c := 0 to |columns|
      invariant |sheet| == c
      invariant forall d :: 0 <= d < c ==> sheet[d] == UncappedWidth(columns[d])
    {
      var w := ColumnWidth(columns[c]);
      sheet := sheet + [w];
    }
  }
}
