/**
 * The index-fund ranking workbook (`enhanced_index.py`): which rows of the
 * open-fund ranking a fund type keeps and in what order, the styles
 * `highlight_top_50_all_columns` gives the cells (each return column's top
 * ten in yellow, the name of a fund in the top ten of at least five columns
 * in gold), the widths `adjust_column_width` sets, and the guard that leaves
 * empty frames out of the workbook. The fetchers here never hand that guard
 * an empty frame: their scalar `.loc` column assignment raises on one, and
 * the exception ends `update_fund_data`. The ranking itself is an input.
 */
module EnhancedIndex {
  import opened Common

  /**
   * A row of the open-fund ranking: code, name (`None` when missing), the
   * return columns that are not NaN, and the 成立时间 and 最新规模 cells the
   * fetchers fill in.
   */
  datatype FundRow = FundRow(code: string, name: Option<string>, perf: map<string, real>, founded: string, scale: string)

  /** A frame: its column labels and its rows in index order. */
  datatype Frame = Frame(columns: seq<string>, rows: seq<FundRow>)

  const NameColumn: string := "基金简称"
  const SixMonths: string := "近6月"
  const Founded: string := "成立时间"
  const LatestScale: string := "最新规模"

  /** The name fragments `fetch_fund_data` excludes, in the order the loop applies them. */
  const ExcludeKeywords: seq<string> := ["红利", "基本面", "价值", "非银", "成长", "低波动", "信息技术", "周期", "非周期", "地产"]

  /** The return columns `highlight_top_50_all_columns` ranks, in its order. */
  const ReturnColumns: seq<string> := ["近1周", "近1月", "近3月", "近6月", "近1年", "今年来"]

  const Yellow: string := "background-color: yellow"
  const Gold: string := "background-color: gold"

  /** The cell of a return column, `None` for NaN. */
  function Return(row: FundRow, col: string): Option<real> {
    if col in row.perf then Some(row.perf[col]) else None
  }

  /* ---- Row filtering ---- */

  /** `df["基金简称"].str.contains(fragment, na=False)`; the fragments used hold no pattern characters. */
  predicate NameHas(row: FundRow, fragment: string) {
    row.name.Some? && Contains(row.name.value, fragment)
  }

  predicate ClearOf(row: FundRow, kws: seq<string>) {
    forall k :: 0 <= k < |kws| ==> !NameHas(row, kws[k])
  }

  function NameMask(fragment: string): FundRow -> bool {
    row => NameHas(row, fragment)
  }

  function LacksMask(fragment: string): FundRow -> bool {
    row => !NameHas(row, fragment)
  }

  function ClearMask(kws: seq<string>): FundRow -> bool {
    row => ClearOf(row, kws)
  }

  function Has6MMask(): FundRow -> bool {
    (row: FundRow) => SixMonths in row.perf
  }

  /** What a row needs to reach the result of `fetch_fund_data(fund_name)`. */
  predicate Eligible(row: FundRow, fundName: string) {
    NameHas(row, fundName) && NameHas(row, "C") && SixMonths in row.perf && ClearOf(row, ExcludeKeywords)
  }

  lemma ClearOfStep(kws: seq<string>, i: nat)
    requires i < |kws|
    ensures forall row :: ClearMask(kws[..i + 1])(row) == (ClearMask(kws[..i])(row) && LacksMask(kws[i])(row))
  {
    forall row
      ensures ClearOf(row, kws[..i + 1]) == (ClearOf(row, kws[..i]) && !NameHas(row, kws[i]))
    {
      assert kws[..i + 1][i] == kws[i];
      assert forall k :: 0 <= k < i ==> kws[..i + 1][k] == kws[..i][k];
    }
  }

  /** The keyword loop of `fetch_fund_data`: the frame is re-masked once per keyword. */
  method KeywordLoop(frame: seq<FundRow>) returns (out: seq<FundRow>)
    ensures out == Filter(frame, ClearMask(ExcludeKeywords))
  {
    out := frame;
    FilterKeepsAll(frame, ClearMask([]));
    assert ExcludeKeywords[..0] == [];
    for i := 0 to |ExcludeKeywords|
      invariant out == Filter(frame, ClearMask(ExcludeKeywords[..i]))
    {
      ClearOfStep(ExcludeKeywords, i);
      FilterTwice(frame, ClearMask(ExcludeKeywords[..i]), LacksMask(ExcludeKeywords[i]), ClearMask(ExcludeKeywords[..i + 1]));
      out := Filter(out, LacksMask(ExcludeKeywords[i]));
    }
    assert ExcludeKeywords[..|ExcludeKeywords|] == ExcludeKeywords;
  }

  /* ---- sort_values(by='近6月', ascending=False) ---- */

  /** `a` may stand before `b` in a descending sort; NaN sorts last. */
  predicate AtLeast(a: Option<real>, b: Option<real>) {
    b.None? || (a.Some? && a.value >= b.value)
  }

  predicate SortedBy(rows: seq<FundRow>, col: string) {
    forall i, j :: 0 <= i < j < |rows| ==> AtLeast(Return(rows[i], col), Return(rows[j], col))
  }

  function InsertBy(x: FundRow, s: seq<FundRow>, col: string): (r: seq<FundRow>)
    ensures |r| == |s| + 1
  {
    if s == [] || AtLeast(Return(x, col), Return(s[0], col)) then [x] + s
    else [s[0]] + InsertBy(x, s[1..], col)
  }

  /** The descending sort by one return column; equal values keep their order. */
  function SortBy(s: seq<FundRow>, col: string): (r: seq<FundRow>)
    ensures |r| == |s|
  {
    if s == [] then [] else InsertBy(s[0], SortBy(s[1..], col), col)
  }

  lemma AtLeastTransitive(a: Option<real>, b: Option<real>, c: Option<real>)
    requires AtLeast(a, b) && AtLeast(b, c)
    ensures AtLeast(a, c)
  {
  }

  lemma {:induction false} InsertByMultiset(x: FundRow, s: seq<FundRow>, col: string)
    ensures multiset(InsertBy(x, s, col)) == multiset(s) + multiset{x}
  {
    if s != [] && !AtLeast(Return(x, col), Return(s[0], col)) {
      InsertByMultiset(x, s[1..], col);
      assert s == [s[0]] + s[1..];
    }
  }

  lemma {:induction false} InsertBySorted(x: FundRow, s: seq<FundRow>, col: string)
    requires SortedBy(s, col)
    ensures SortedBy(InsertBy(x, s, col), col)
  {
    if s == [] {
    } else if AtLeast(Return(x, col), Return(s[0], col)) {
      var r := [x] + s;
      forall i, j | 0 <= i < j < |r|
        ensures AtLeast(Return(r[i], col), Return(r[j], col))
      {
        if i == 0 && j > 1 {
          AtLeastTransitive(Return(x, col), Return(s[0], col), Return(s[j - 1], col));
        }
      }
    } else {
      InsertBySorted(x, s[1..], col);
      InsertByMultiset(x, s[1..], col);
      var rest := InsertBy(x, s[1..], col);
      var r := [s[0]] + rest;
      forall j | 0 < j < |r|
        ensures AtLeast(Return(s[0], col), Return(r[j], col))
      {
        assert r[j] == rest[j - 1];
        assert r[j] in multiset(rest);
        if r[j] != x {
          assert r[j] in multiset(s[1..]);
          var m :| 0 <= m < |s[1..]| && s[1..][m] == r[j];
          assert s[m + 1] == r[j];
        }
      }
    }
  }

  /** The sorted frame is in descending order of the column and holds exactly the rows it was given. */
  lemma {:induction false} SortByFacts(s: seq<FundRow>, col: string)
    ensures SortedBy(SortBy(s, col), col)
    ensures multiset(SortBy(s, col)) == multiset(s)
  {
    if s != [] {
      SortByFacts(s[1..], col);
      InsertBySorted(s[0], SortBy(s[1..], col), col);
      InsertByMultiset(s[0], SortBy(s[1..], col), col);
      assert s == [s[0]] + s[1..];
    }
  }

  /* ---- 成立时间 and 最新规模 from the per-fund provider ---- */

  /** The provider's answer for one code: its (item, value) table, `None` when the call raised. */
  type Lookup = string -> Option<seq<(string, string)>>

  /** `info.loc[info["item"] == key, "value"].values[0]`: the value of the first item named `key`. */
  function ItemValue(items: seq<(string, string)>, key: string): (r: Option<string>)
    ensures r.None? <==> forall k :: 0 <= k < |items| ==> items[k].0 != key
    ensures r.Some? ==> exists k :: 0 <= k < |items| && items[k] == (key, r.value) && forall j :: 0 <= j < k ==> items[j].0 != key
  {
    if items == [] then None
    else if items[0].0 == key then Some(items[0].1)
    else
      var r := ItemValue(items[1..], key);
      assert forall k :: 0 < k < |items| ==> items[k] == items[1..][k - 1];
      r
  }

  function OrEmpty(o: Option<string>): string {
    if o.Some? then o.value else ""
  }

  /** One pass of the enrichment loop: both columns start empty and take the provider's values when it answers with them. */
  function Enriched(row: FundRow, info: Option<seq<(string, string)>>): (r: FundRow)
    ensures r.code == row.code && r.name == row.name && r.perf == row.perf
    ensures r.founded == (if info.Some? then OrEmpty(ItemValue(info.value, Founded)) else "")
    ensures r.scale == (if info.Some? then OrEmpty(ItemValue(info.value, LatestScale)) else "")
  {
    if info.None? then row.(founded := "", scale := "")
    else row.(founded := OrEmpty(ItemValue(info.value, Founded)), scale := OrEmpty(ItemValue(info.value, LatestScale)))
  }

  function EnrichAll(rows: seq<FundRow>, lookup: Lookup): seq<FundRow> {
    seq(|rows|, i requires 0 <= i < |rows| => Enriched(rows[i], lookup(rows[i].code)))
  }

  /** The loop over `fund_df.iterrows()` that fills 成立时间 and 最新规模 row by row. */
  method Enrich(rows: seq<FundRow>, lookup: Lookup) returns (out: seq<FundRow>)
    ensures |out| == |rows|
    ensures forall i :: 0 <= i < |rows| ==> out[i] == Enriched(rows[i], lookup(rows[i].code))
  {
    out := rows;
    for i := 0 to |rows|
      invariant |out| == |rows|
      invariant forall j :: 0 <= j < i ==> out[j] == Enriched(rows[j], lookup(rows[j].code))
      invariant forall j :: i <= j < |rows| ==> out[j] == rows[j]
    {
      var info := lookup(rows[i].code);
      var row := out[i].(founded := "", scale := "");
      if info.Some? {
        var f := ItemValue(info.value, Founded);
        if f.Some? {
          row := row.(founded := f.value);
        }
        var s := ItemValue(info.value, LatestScale);
        if s.Some? {
          row := row.(scale := s.value);
        }
      }
      out := out[i := row];
    }
  }

  lemma EnrichAllMembers(rows: seq<FundRow>, lookup: Lookup)
    ensures forall row :: row in EnrichAll(rows, lookup) <==> exists r :: r in rows && row == Enriched(r, lookup(r.code))
  {
    var e := EnrichAll(rows, lookup);
    forall row ensures row in e <==> exists r :: r in rows && row == Enriched(r, lookup(r.code)) {
      if row in e {
        var i :| 0 <= i < |e| && e[i] == row;
        assert rows[i] in rows;
      }
      if exists r :: r in rows && row == Enriched(r, lookup(r.code)) {
        var r :| r in rows && row == Enriched(r, lookup(r.code));
        var i :| 0 <= i < |rows| && rows[i] == r;
        assert e[i] == row;
      }
    }
  }

  /** `fund_df.loc[:, col] = ""` adds the column at the end unless it is there already. */
  function WithColumn(cols: seq<string>, col: string): (r: seq<string>)
    ensures forall c :: c in r <==> c in cols || c == col
  {
    if col in cols then cols else cols + [col]
  }

  /* ---- fetch_fund_data and fetch_small_fund_data ---- */

  function EligibleMask(fundName: string): FundRow -> bool {
    row => Eligible(row, fundName)
  }

  /** The row selection of `fetch_fund_data`: the name, "C" and 近6月 masks, then the keyword loop. */
  method SelectEligible(rows: seq<FundRow>, fundName: string) returns (df: seq<FundRow>)
    ensures df == Filter(rows, EligibleMask(fundName))
  {
    df := Filter(rows, NameMask(fundName));
    df := Filter(df, NameMask("C"));
    df := Filter(df, Has6MMask());
    df := KeywordLoop(df);
    var p1 := (row: FundRow) => NameHas(row, fundName) && NameHas(row, "C");
    var p2 := (row: FundRow) => p1(row) && SixMonths in row.perf;
    FilterTwice(rows, NameMask(fundName), NameMask("C"), p1);
    FilterTwice(rows, p1, Has6MMask(), p2);
    FilterTwice(rows, p2, ClearMask(ExcludeKeywords), EligibleMask(fundName));
  }

  /**
   * The two new columns, the enrichment loop and
   * `sort_values(by='近6月', ascending=False)`, shared by the fetchers of
   * both workbooks. The web application adds the columns with
   * `fund_df[col] = ""`, which accepts a frame with no rows; the fetchers
   * here raise before reaching this on such a frame.
   */
  method EnrichAndSort(columns: seq<string>, df: seq<FundRow>, lookup: Lookup) returns (out: Frame)
    ensures out.columns == WithColumn(WithColumn(columns, Founded), LatestScale)
    ensures SortedBy(out.rows, SixMonths)
    ensures multiset(out.rows) == multiset(EnrichAll(df, lookup))
    ensures forall row :: row in out.rows <==> exists r :: r in df && row == Enriched(r, lookup(r.code))
    ensures out.rows == [] <==> df == []
  {
    var enriched := Enrich(df, lookup);
    assert enriched == EnrichAll(df, lookup);
    out := Frame(WithColumn(WithColumn(columns, Founded), LatestScale), SortBy(enriched, SixMonths));
    SortByFacts(enriched, SixMonths);
    EnrichAllMembers(df, lookup);
    forall row ensures row in out.rows <==> row in enriched {
      assert row in out.rows <==> row in multiset(out.rows);
    }
  }

  /**
   * `fetch_fund_data` on the ranking it downloads. The scalar assignment
   * `fund_df.loc[:, "成立时间"] = ""` raises ValueError on a frame with no
   * rows, so the call raises exactly when no row is eligible. Otherwise the
   * result holds one enriched row for each eligible row and nothing else,
   * in descending order of 近6月.
   */
  method FetchFundData(ranking: Frame, fundName: string, lookup: Lookup) returns (out: Outcome<Frame>)
    ensures out.Raised? <==> Filter(ranking.rows, EligibleMask(fundName)) == []
    ensures out.Returned? ==> out.value.columns == WithColumn(WithColumn(ranking.columns, Founded), LatestScale)
    ensures out.Returned? ==> SortedBy(out.value.rows, SixMonths)
    ensures out.Returned? ==>
      multiset(out.value.rows) == multiset(EnrichAll(Filter(ranking.rows, EligibleMask(fundName)), lookup))
    ensures out.Returned? ==> forall row :: row in out.value.rows <==>
      exists r :: r in ranking.rows && Eligible(r, fundName) && row == Enriched(r, lookup(r.code))
  {
    var df := SelectEligible(ranking.rows, fundName);
    if df == [] {
      return Raised;
    }
    var f := EnrichAndSort(ranking.columns, df, lookup);
    out := Returned(f);
  }

  function SmallMask(small: seq<string>): FundRow -> bool {
    (row: FundRow) => row.code in small
  }

  /**
   * `fetch_small_fund_data`: the rows whose code is on the small-fund list,
   * enriched and sorted the same way; like `fetch_fund_data` it raises at
   * the first scalar column assignment when no listed fund is ranked.
   */
  method FetchSmallFundData(ranking: Frame, small: seq<string>, lookup: Lookup) returns (out: Outcome<Frame>)
    ensures out.Raised? <==> Filter(ranking.rows, SmallMask(small)) == []
    ensures out.Returned? ==> out.value.columns == WithColumn(WithColumn(ranking.columns, Founded), LatestScale)
    ensures out.Returned? ==> SortedBy(out.value.rows, SixMonths)
    ensures out.Returned? ==>
      multiset(out.value.rows) == multiset(EnrichAll(Filter(ranking.rows, SmallMask(small)), lookup))
    ensures out.Returned? ==> forall row :: row in out.value.rows <==>
      exists r :: r in ranking.rows && r.code in small && row == Enriched(r, lookup(r.code))
  {
    var df := Filter(ranking.rows, SmallMask(small));
    if df == [] {
      return Raised;
    }
    var f := EnrichAndSort(ranking.columns, df, lookup);
    out := Returned(f);
  }

  /* ---- Series.nlargest(10), keep='first' ---- */

  /** pandas' order for `nlargest`: the larger value first, equal values by position. */
  predicate Ahead(vals: seq<Option<real>>, i: int, j: int)
    requires 0 <= i < |vals| && 0 <= j < |vals| && vals[i].Some? && vals[j].Some?
  {
    vals[i].value > vals[j].value || (vals[i].value == vals[j].value && i < j)
  }

  predicate Candidate(vals: seq<Option<real>>, i: int, taken: set<int>) {
    0 <= i < |vals| && vals[i].Some? && i !in taken
  }

  /** The positions still to rank: not NaN and not taken yet. */
  function Candidates(vals: seq<Option<real>>, taken: set<int>): set<int> {
    set i | 0 <= i < |vals| && Candidate(vals, i, taken)
  }

  /** The first largest candidate among the first `n` positions. */
  function BestBelow(vals: seq<Option<real>>, taken: set<int>, n: nat): (r: Option<int>)
    requires n <= |vals|
    ensures r.Some? ==> Candidate(vals, r.value, taken) && r.value < n
    ensures r.None? ==> forall j :: 0 <= j < n ==> !Candidate(vals, j, taken)
    ensures r.Some? ==> forall j :: 0 <= j < n && Candidate(vals, j, taken) && j != r.value ==> Ahead(vals, r.value, j)
  {
    if n == 0 then None
    else
      var b := BestBelow(vals, taken, n - 1);
      if Candidate(vals, n - 1, taken) && (b.None? || vals[n - 1].value > vals[b.value].value) then Some(n - 1) else b
  }

  /** The positions `nlargest(k)` returns, in its order: one at a time, the first best of those left. */
  function NLargest(vals: seq<Option<real>>, k: nat, taken: set<int>): (r: seq<int>)
    ensures |r| <= k
    decreases k
  {
    if k == 0 then []
    else
      match BestBelow(vals, taken, |vals|)
      case None => []
      case Some(m) => [m] + NLargest(vals, k - 1, taken + {m})
  }

  lemma CandidatesTake(vals: seq<Option<real>>, taken: set<int>, m: int)
    ensures Candidates(vals, taken + {m}) == Candidates(vals, taken) - {m}
  {
  }

  lemma {:induction false} NLargestWithin(vals: seq<Option<real>>, k: nat, taken: set<int>)
    ensures forall x :: x in NLargest(vals, k, taken) ==> x in Candidates(vals, taken)
    decreases k
  {
    if k > 0 {
      var b := BestBelow(vals, taken, |vals|);
      if b.Some? {
        NLargestWithin(vals, k - 1, taken + {b.value});
        CandidatesTake(vals, taken, b.value);
      }
    }
  }

  lemma {:induction false} NLargestDistinct(vals: seq<Option<real>>, k: nat, taken: set<int>)
    ensures NoDuplicates(NLargest(vals, k, taken))
    decreases k
  {
    if k > 0 {
      var b := BestBelow(vals, taken, |vals|);
      if b.Some? {
        var m := b.value;
        NLargestDistinct(vals, k - 1, taken + {m});
        NLargestWithin(vals, k - 1, taken + {m});
        var rest := NLargest(vals, k - 1, taken + {m});
        var r := NLargest(vals, k, taken);
        assert r == [m] + rest;
        forall a, c | 0 <= a < c < |r| ensures r[a] != r[c] {
          assert r[c] == rest[c - 1];
          if a == 0 {
            assert rest[c - 1] in rest;
          } else {
            assert r[a] == rest[a - 1];
          }
        }
      }
    }
  }

  /** `nlargest(k)` picks `k` positions, or every candidate when there are fewer. */
  lemma {:induction false} NLargestCount(vals: seq<Option<real>>, k: nat, taken: set<int>)
    ensures |NLargest(vals, k, taken)| == if |Candidates(vals, taken)| < k then |Candidates(vals, taken)| else k
    decreases k
  {
    if k > 0 {
      var b := BestBelow(vals, taken, |vals|);
      if b.None? {
        assert Candidates(vals, taken) == {};
      } else {
        var m := b.value;
        NLargestCount(vals, k - 1, taken + {m});
        CandidatesTake(vals, taken, m);
        assert m in Candidates(vals, taken);
        assert |Candidates(vals, taken) - {m}| == |Candidates(vals, taken)| - 1;
      }
    }
  }

  /** Every picked position is ahead of every candidate left out, so ties go to the earlier row. */
  lemma {:induction false} NLargestFirst(vals: seq<Option<real>>, k: nat, taken: set<int>, i: int, j: int)
    requires i in NLargest(vals, k, taken) && j in Candidates(vals, taken) && j !in NLargest(vals, k, taken)
    ensures 0 <= i < |vals| && vals[i].Some? && Ahead(vals, i, j)
    decreases k
  {
    NLargestWithin(vals, k, taken);
    var m := BestBelow(vals, taken, |vals|).value;
    if i != m {
      CandidatesTake(vals, taken, m);
      NLargestFirst(vals, k - 1, taken + {m}, i, j);
    }
  }

  lemma HeadAhead(vals: seq<Option<real>>, taken: set<int>, m: int, rest: seq<int>)
    requires BestBelow(vals, taken, |vals|) == Some(m)
    requires forall x :: x in rest ==> x in Candidates(vals, taken + {m})
    ensures forall c :: 0 <= c < |rest| ==> Candidate(vals, rest[c], taken) && Ahead(vals, m, rest[c])
  {
    forall c | 0 <= c < |rest| ensures Candidate(vals, rest[c], taken) && Ahead(vals, m, rest[c]) {
      assert rest[c] in rest;
    }
  }

  /** The picked positions come out best first. */
  lemma {:induction false} NLargestOrdered(vals: seq<Option<real>>, k: nat, taken: set<int>)
    ensures forall a, c :: 0 <= a < c < |NLargest(vals, k, taken)| ==>
      (Candidate(vals, NLargest(vals, k, taken)[a], taken) && Candidate(vals, NLargest(vals, k, taken)[c], taken) &&
       Ahead(vals, NLargest(vals, k, taken)[a], NLargest(vals, k, taken)[c]))
    decreases k
  {
    var r := NLargest(vals, k, taken);
    if k > 0 && BestBelow(vals, taken, |vals|).Some? {
      var m := BestBelow(vals, taken, |vals|).value;
      var rest := NLargest(vals, k - 1, taken + {m});
      NLargestOrdered(vals, k - 1, taken + {m});
      NLargestWithin(vals, k - 1, taken + {m});
      HeadAhead(vals, taken, m, rest);
      assert r == [m] + rest;
      forall a, c | 0 <= a < c < |r|
        ensures Candidate(vals, r[a], taken) && Candidate(vals, r[c], taken) && Ahead(vals, r[a], r[c])
      {
        assert r[c] == rest[c - 1];
        if a > 0 {
          assert r[a] == rest[a - 1];
        }
      }
    } else {
      assert r == [];
    }
  }

  /** A column of the frame, NaN as `None`. */
  function ColumnValues(rows: seq<FundRow>, col: string): (vals: seq<Option<real>>)
    ensures |vals| == |rows| && forall i :: 0 <= i < |rows| ==> vals[i] == Return(rows[i], col)
  {
    seq(|rows|, i requires 0 <= i < |rows| => Return(rows[i], col))
  }

  /** The rows of `df[col].nlargest(10).index`, in that order. */
  function TopTen(rows: seq<FundRow>, col: string): seq<int> {
    NLargest(ColumnValues(rows, col), 10, {})
  }

  /** The rows whose `col` is not NaN. */
  function Present(rows: seq<FundRow>, col: string): set<int> {
    set i | 0 <= i < |rows| && col in rows[i].perf
  }

  lemma PresentCandidates(rows: seq<FundRow>, col: string)
    ensures Candidates(ColumnValues(rows, col), {}) == Present(rows, col)
  {
  }

  /**
   * The top ten of a column: ten distinct rows, or every row with a value
   * when fewer have one; only rows with a value; best first; and each of
   * them ahead of every row left out, the earlier row winning a tie.
   */
  lemma TopTenMeaning(rows: seq<FundRow>, col: string)
    ensures forall i :: i in TopTen(rows, col) ==> i in Present(rows, col)
    ensures NoDuplicates(TopTen(rows, col))
    ensures |TopTen(rows, col)| == if |Present(rows, col)| < 10 then |Present(rows, col)| else 10
    ensures forall a, c :: 0 <= a < c < |TopTen(rows, col)| ==>
      (TopTen(rows, col)[a] in Present(rows, col) && TopTen(rows, col)[c] in Present(rows, col) &&
       rows[TopTen(rows, col)[a]].perf[col] >= rows[TopTen(rows, col)[c]].perf[col])
    ensures forall i, j :: i in TopTen(rows, col) && j in Present(rows, col) && j !in TopTen(rows, col) ==>
      rows[i].perf[col] > rows[j].perf[col] || (rows[i].perf[col] == rows[j].perf[col] && i < j)
  {
    var vals := ColumnValues(rows, col);
    PresentCandidates(rows, col);
    NLargestWithin(vals, 10, {});
    NLargestDistinct(vals, 10, {});
    NLargestCount(vals, 10, {});
    NLargestOrdered(vals, 10, {});
    forall i, j | i in TopTen(rows, col) && j in Present(rows, col) && j !in TopTen(rows, col)
      ensures rows[i].perf[col] > rows[j].perf[col] || (rows[i].perf[col] == rows[j].perf[col] && i < j)
    {
      NLargestFirst(vals, 10, {}, i, j);
    }
  }

  /* ---- highlight_top_50_all_columns ---- */

  /** Row `i` is among the top ten of `col`, that column being in the frame. */
  predicate InTop(f: Frame, col: string, i: int) {
    col in f.columns && i in TopTen(f.rows, col)
  }

  /** `top_count[idx]` after the columns `cols` have been ranked. */
  function TopCount(f: Frame, cols: seq<string>, i: int): nat {
    CountBack(cols, TopMask(f, i))
  }

  function TopMask(f: Frame, i: int): string -> bool {
    c => InTop(f, c, i)
  }

  /** Over distinct columns the count is the number of those columns whose top ten holds the row. */
  lemma TopCountColumns(f: Frame, cols: seq<string>, i: int)
    requires NoDuplicates(cols)
    ensures TopCount(f, cols, i) == |set c | c in cols && InTop(f, c, i)|
  {
    CountBackDistinct(cols, TopMask(f, i));
    assert Satisfying(cols, TopMask(f, i)) == set c | c in cols && InTop(f, c, i);
  }

  /** The style of one cell: gold for the name of a row in at least five top tens, yellow for a top-ten return, else none. */
  function StyleOf(f: Frame, i: int, col: string): string {
    if col == NameColumn && TopCount(f, ReturnColumns, i) >= 5 then Gold
    else if col in ReturnColumns && InTop(f, col, i) then Yellow
    else ""
  }

  function ColumnSet(f: Frame): set<string> {
    set c | c in f.columns
  }

  /** The style of a cell after the yellow pass over the first `k` return columns. */
  function YellowStyle(f: Frame, k: nat, i: int, c: string): string
    requires k <= |ReturnColumns|
  {
    if c in ReturnColumns[..k] && InTop(f, c, i) then Yellow else ""
  }

  /** The style frame after the yellow pass over the first `k` return columns. */
  ghost predicate YellowAfter(f: Frame, k: nat, styles: seq<map<string, string>>)
    requires k <= |ReturnColumns|
  {
    |styles| == |f.rows| &&
    forall i :: 0 <= i < |styles| ==>
      styles[i].Keys == ColumnSet(f) && forall c :: c in styles[i] ==> styles[i][c] == YellowStyle(f, k, i, c)
  }

  /** `styles.loc[top, col] = 'background-color: yellow'`. */
  function MarkColumn(styles: seq<map<string, string>>, top: seq<int>, col: string): (r: seq<map<string, string>>)
    ensures |r| == |styles|
  {
    seq(|styles|, i requires 0 <= i < |styles| => if i in top then styles[i][col := Yellow] else styles[i])
  }

  lemma MarkStep(f: Frame, k: nat, styles: seq<map<string, string>>)
    requires k < |ReturnColumns| && YellowAfter(f, k, styles)
    ensures ReturnColumns[k] in f.columns ==> YellowAfter(f, k + 1, MarkColumn(styles, TopTen(f.rows, ReturnColumns[k]), ReturnColumns[k]))
    ensures ReturnColumns[k] !in f.columns ==> YellowAfter(f, k + 1, styles)
  {
    var col := ReturnColumns[k];
    assert ReturnColumns[..k + 1] == ReturnColumns[..k] + [col];
    if col in f.columns {
      var top := TopTen(f.rows, col);
      var m := MarkColumn(styles, top, col);
      forall i | 0 <= i < |m|
        ensures m[i].Keys == ColumnSet(f) && forall c :: c in m[i] ==> m[i][c] == YellowStyle(f, k + 1, i, c)
      {
        assert col in ColumnSet(f);
        assert m[i] == if i in top then styles[i][col := Yellow] else styles[i];
      }
    }
  }

  lemma TopCountStep(f: Frame, k: nat)
    requires k < |ReturnColumns|
    ensures forall i :: TopCount(f, ReturnColumns[..k + 1], i) == TopCount(f, ReturnColumns[..k], i) + (if InTop(f, ReturnColumns[k], i) then 1 else 0)
  {
    assert ReturnColumns[..k + 1][..k] == ReturnColumns[..k];
  }

  /** `for idx in top_10_idx: top_count[idx] += 1`: each row gains as many as it occurs in `top`. */
  method CountTop(topCount: seq<nat>, top: seq<int>) returns (counted: seq<nat>)
    ensures |counted| == |topCount|
    ensures forall i :: 0 <= i < |topCount| ==> counted[i] == topCount[i] + multiset(top)[i]
  {
    counted := topCount;
    for j := 0 to |top|
      invariant |counted| == |topCount|
      invariant forall i :: 0 <= i < |topCount| ==> counted[i] == topCount[i] + multiset(top[..j])[i]
    {
      assert top[..j + 1] == top[..j] + [top[j]];
      if 0 <= top[j] < |counted| {
        counted := counted[top[j] := counted[top[j]] + 1];
      }
    }
    assert top[..|top|] == top;
  }

  /** The loop over the return columns: each top ten in yellow, and the count of top tens per row. */
  method YellowPass(f: Frame) returns (styles: seq<map<string, string>>, topCount: seq<nat>)
    ensures YellowAfter(f, |ReturnColumns|, styles) && |topCount| == |f.rows|
    ensures forall i :: 0 <= i < |f.rows| ==> topCount[i] == TopCount(f, ReturnColumns, i)
  {
    styles := seq(|f.rows|, i => map c | c in ColumnSet(f) :: "");
    topCount := seq(|f.rows|, i => 0);
    for k := 0 to |ReturnColumns|
      invariant YellowAfter(f, k, styles) && |topCount| == |f.rows|
      invariant forall i :: 0 <= i < |f.rows| ==> topCount[i] == TopCount(f, ReturnColumns[..k], i)
    {
      var col := ReturnColumns[k];
      MarkStep(f, k, styles);
      TopCountStep(f, k);
      if col in f.columns {
        var top := TopTen(f.rows, col);
        styles := MarkColumn(styles, top, col);
        topCount := CountTop(topCount, top);
        TopTenMeaning(f.rows, col);
        forall i | 0 <= i < |f.rows| ensures multiset(top)[i] == if i in top then 1 else 0 {
          DistinctMultiplicity(top, i);
        }
      }
    }
    assert ReturnColumns[..|ReturnColumns|] == ReturnColumns;
  }

  /** The loop over `top_count`: the name cell of a row counted at least five times turns gold. */
  method GoldPass(styles: seq<map<string, string>>, topCount: seq<nat>) returns (out: seq<map<string, string>>)
    requires |topCount| == |styles|
    ensures |out| == |styles|
    ensures forall j :: 0 <= j < |styles| ==> out[j] == if topCount[j] >= 5 then styles[j][NameColumn := Gold] else styles[j]
  {
    out := styles;
    for i := 0 to |styles|
      invariant |out| == |styles|
      invariant forall j :: 0 <= j < i ==> out[j] == if topCount[j] >= 5 then styles[j][NameColumn := Gold] else styles[j]
      invariant forall j :: i <= j < |styles| ==> out[j] == styles[j]
    {
      if topCount[i] >= 5 {
        out := out[i := out[i][NameColumn := Gold]];
      }
    }
  }

  /**
   * The styles `highlight_top_50_all_columns` gives a frame: one map from
   * column to style per row, over the frame's columns plus 基金简称 where
   * that cell turns gold, each cell styled as `StyleOf` says.
   */
  ghost predicate Highlighted(f: Frame, styles: seq<map<string, string>>) {
    |styles| == |f.rows| &&
    (forall i :: 0 <= i < |f.rows| ==>
      styles[i].Keys == ColumnSet(f) + (if TopCount(f, ReturnColumns, i) >= 5 then {NameColumn} else {})) &&
    (forall i, c :: 0 <= i < |f.rows| && c in styles[i] ==> styles[i][c] == StyleOf(f, i, c))
  }

  /** `highlight_top_50_all_columns`. */
  method Highlight(f: Frame) returns (styles: seq<map<string, string>>)
    ensures Highlighted(f, styles)
  {
    var yellow, topCount := YellowPass(f);
    styles := GoldPass(yellow, topCount);
    forall i | 0 <= i < |f.rows|
      ensures styles[i].Keys == ColumnSet(f) + (if TopCount(f, ReturnColumns, i) >= 5 then {NameColumn} else {})
      ensures forall c :: c in styles[i] ==> styles[i][c] == StyleOf(f, i, c)
    {
      GoldRow(f, i, yellow[i], topCount[i], styles[i]);
    }
  }

  /** One row after both passes: the yellow styles, with the name cell gold when the row is counted five times. */
  lemma GoldRow(f: Frame, i: int, yellow: map<string, string>, n: nat, out: map<string, string>)
    requires yellow.Keys == ColumnSet(f)
    requires forall c :: c in yellow ==> yellow[c] == YellowStyle(f, |ReturnColumns|, i, c)
    requires n == TopCount(f, ReturnColumns, i)
    requires out == if n >= 5 then yellow[NameColumn := Gold] else yellow
    ensures out.Keys == ColumnSet(f) + (if n >= 5 then {NameColumn} else {})
    ensures forall c :: c in out ==> out[c] == StyleOf(f, i, c)
  {
    assert ReturnColumns[..|ReturnColumns|] == ReturnColumns;
    assert NameColumn !in ReturnColumns;
  }

  lemma YellowAt(f: Frame, styles: seq<map<string, string>>, col: string, i: int)
    requires Highlighted(f, styles) && col in ReturnColumns && col in f.columns && 0 <= i < |f.rows|
    ensures (col in styles[i] && styles[i][col] == Yellow) <==> i in TopTen(f.rows, col)
  {
    assert NameColumn !in ReturnColumns;
    assert col in ColumnSet(f);
    assert styles[i][col] == StyleOf(f, i, col);
  }

  /** The yellow cells of a return column in the frame are exactly its top ten: ten of them, or as many as have a value. */
  lemma YellowCells(f: Frame, styles: seq<map<string, string>>, col: string)
    requires Highlighted(f, styles) && col in ReturnColumns && col in f.columns
    ensures (set i | 0 <= i < |f.rows| && col in styles[i] && styles[i][col] == Yellow) == (set i | i in TopTen(f.rows, col))
    ensures |set i | 0 <= i < |f.rows| && col in styles[i] && styles[i][col] == Yellow| ==
      if |Present(f.rows, col)| < 10 then |Present(f.rows, col)| else 10
  {
    TopTenMeaning(f.rows, col);
    DistinctCount(TopTen(f.rows, col));
    var yellow := set i | 0 <= i < |f.rows| && col in styles[i] && styles[i][col] == Yellow;
    var top := set i | i in TopTen(f.rows, col);
    forall i | 0 <= i < |f.rows| ensures i in yellow <==> i in top {
      YellowAt(f, styles, col, i);
    }
    forall i | i in top ensures 0 <= i < |f.rows| {
      assert i in Present(f.rows, col);
    }
    assert yellow == top;
  }

  lemma GoldAt(f: Frame, styles: seq<map<string, string>>, i: int)
    requires Highlighted(f, styles) && 0 <= i < |f.rows|
    ensures (NameColumn in styles[i] && styles[i][NameColumn] == Gold) <==> TopCount(f, ReturnColumns, i) >= 5
  {
    assert NameColumn !in ReturnColumns;
  }

  /** The name cell of a row is gold exactly when the row is in the top ten of at least five return columns. */
  lemma GoldCells(f: Frame, styles: seq<map<string, string>>, i: int)
    requires Highlighted(f, styles) && 0 <= i < |f.rows|
    ensures (NameColumn in styles[i] && styles[i][NameColumn] == Gold) <==> |set c | c in ReturnColumns && InTop(f, c, i)| >= 5
  {
    assert NoDuplicates(ReturnColumns);
    TopCountColumns(f, ReturnColumns, i);
    GoldAt(f, styles, i);
  }

  /** A cell that is neither a return column nor 基金简称 keeps the empty style. */
  lemma PlainCells(f: Frame, styles: seq<map<string, string>>, i: int, c: string)
    requires Highlighted(f, styles) && 0 <= i < |f.rows| && c in styles[i]
    requires c !in ReturnColumns && c != NameColumn
    ensures c in f.columns && styles[i][c] == ""
  {
  }

  /* ---- save_to_excel and update_fund_data ---- */

  /** A sheet of the workbook: its name, the frame written and the styles it carries. */
  datatype Sheet = Sheet(name: string, frame: Frame, styles: seq<map<string, string>>)

  /** `save_to_excel`: a non-empty frame becomes one more styled sheet; an empty one writes nothing. */
  method SaveToExcel(book: seq<Sheet>, f: Frame, name: string) returns (out: seq<Sheet>)
    ensures f.rows == [] ==> out == book
    ensures f.rows != [] ==>
      (|out| == |book| + 1 && out[..|book|] == book &&
       out[|book|].name == name && out[|book|].frame == f && Highlighted(f, out[|book|].styles))
  {
    out := book;
    if f.rows != [] {
      var styles := Highlight(f);
      out := book + [Sheet(name, f, styles)];
    }
  }

  const FundTypes: seq<string> := ["沪深300", "中证500", "中证1000", "中证2000", "国证2000"]
  const SmallSheet: string := "小微盘"

  function SheetName(fundType: string): string {
    fundType + "基金"
  }

  /**
   * The position of the first fund type without an eligible row, or the
   * number of types when every type has one: the loop over the types gets
   * that far before `fetch_fund_data` raises.
   */
  function FirstBare(rows: seq<FundRow>, types: seq<string>): (n: nat)
    ensures n <= |types|
    ensures forall i :: 0 <= i < n ==> Filter(rows, EligibleMask(types[i])) != []
    ensures n < |types| ==> Filter(rows, EligibleMask(types[n])) == []
  {
    if types == [] || Filter(rows, EligibleMask(types[0])) == [] then 0
    else
      var n := FirstBare(rows, types[1..]);
      assert forall i :: 1 <= i <= n ==> types[i] == types[1..][i - 1];
      1 + n
  }

  /** The sheet written for a fund type: its name, the eligible rows enriched and sorted, and their styles. */
  ghost predicate SheetFor(s: Sheet, ranking: Frame, lookup: Lookup, fundType: string) {
    s.name == SheetName(fundType) &&
    s.frame.columns == WithColumn(WithColumn(ranking.columns, Founded), LatestScale) &&
    s.frame.rows != [] && SortedBy(s.frame.rows, SixMonths) &&
    multiset(s.frame.rows) == multiset(EnrichAll(Filter(ranking.rows, EligibleMask(fundType)), lookup)) &&
    Highlighted(s.frame, s.styles)
  }

  /** Each sheet of `book` is the one written for the fund type at the same place in `written`. */
  ghost predicate SheetsFor(book: seq<Sheet>, ranking: Frame, lookup: Lookup, written: seq<string>) {
    |book| == |written| && forall k :: 0 <= k < |book| ==> SheetFor(book[k], ranking, lookup, written[k])
  }

  /** The 小微盘 sheet: the listed funds' rows enriched and sorted, and their styles. */
  ghost predicate SmallSheetFor(s: Sheet, ranking: Frame, lookup: Lookup, small: seq<string>) {
    s.name == SmallSheet &&
    s.frame.columns == WithColumn(WithColumn(ranking.columns, Founded), LatestScale) &&
    s.frame.rows != [] && SortedBy(s.frame.rows, SixMonths) &&
    multiset(s.frame.rows) == multiset(EnrichAll(Filter(ranking.rows, SmallMask(small)), lookup)) &&
    Highlighted(s.frame, s.styles)
  }

  /**
   * The loop over `fund_types` in `update_fund_data`: one sheet per type,
   * in order, until the first type without an eligible row, whose fetch
   * raises out of the loop.
   */
  method WriteTypeSheets(ranking: Frame, lookup: Lookup) returns (book: seq<Sheet>, raised: bool)
    ensures raised <==> exists i :: 0 <= i < |FundTypes| && Filter(ranking.rows, EligibleMask(FundTypes[i])) == []
    ensures SheetsFor(book, ranking, lookup, FundTypes[..FirstBare(ranking.rows, FundTypes)])
  {
    book, raised := WriteSheets(ranking, lookup, FundTypes);
  }

  /** The same loop over any list of fund types. */
  method WriteSheets(ranking: Frame, lookup: Lookup, types: seq<string>) returns (book: seq<Sheet>, raised: bool)
    ensures raised <==> FirstBare(ranking.rows, types) < |types|
    ensures SheetsFor(book, ranking, lookup, types[..FirstBare(ranking.rows, types)])
  {
    book := [];
    for n := 0 to |types|
      invariant n <= FirstBare(ranking.rows, types)
      invariant SheetsFor(book, ranking, lookup, types[..n])
    {
      var stop;
      book, stop := AddTypeSheet(book, ranking, lookup, types[n], types[..n]);
      if stop {
        assert FirstBare(ranking.rows, types) == n;
        return book, true;
      }
      assert types[..n + 1] == types[..n] + [types[n]];
    }
    assert FirstBare(ranking.rows, types) == |types|;
    assert types[..|types|] == types;
    raised := false;
  }

  /**
   * One pass of the loop over `fund_types`: fetch the type's rows and save
   * them. The fetch raises exactly when the type has no eligible row;
   * otherwise the sheets written so far, for the types `written`, gain
   * this type's sheet.
   */
  method AddTypeSheet(book: seq<Sheet>, ranking: Frame, lookup: Lookup, t: string, ghost written: seq<string>)
    returns (out: seq<Sheet>, raised: bool)
    requires SheetsFor(book, ranking, lookup, written)
    ensures raised <==> Filter(ranking.rows, EligibleMask(t)) == []
    ensures raised ==> out == book
    ensures !raised ==> SheetsFor(out, ranking, lookup, written + [t])
  {
    var df := FetchFundData(ranking, t, lookup);
    if df.Raised? {
      return book, true;
    }
    out := SaveToExcel(book, df.value, SheetName(t));
    raised := false;
    assert out == book + [out[|book|]];
    SheetsExtend(book, out[|book|], written, t, ranking, lookup);
  }

  lemma SheetsExtend(book: seq<Sheet>, s: Sheet, written: seq<string>, t: string, ranking: Frame, lookup: Lookup)
    requires SheetsFor(book, ranking, lookup, written) && SheetFor(s, ranking, lookup, t)
    ensures SheetsFor(book + [s], ranking, lookup, written + [t])
  {
    var b, w := book + [s], written + [t];
    forall k | 0 <= k < |b|
      ensures SheetFor(b[k], ranking, lookup, w[k])
    {
      if k < |book| {
        assert b[k] == book[k] && w[k] == written[k];
      }
    }
  }

  /**
   * `update_fund_data`: the type sheets, then the 小微盘 sheet, then
   * `adjust_column_width` on the cells `render` says the writer put in
   * each sheet. A fetch that raises (a type without an eligible row, or
   * no listed fund in the ranking) leaves the `with` block and the
   * function: the sheets written before it are all there is, and no width
   * is set.
   */
  method UpdateFundData(ranking: Frame, small: seq<string>, lookup: Lookup, render: Sheet -> seq<seq<CellValue>>)
    returns (book: seq<Sheet>, raised: bool, widths: seq<seq<int>>)
    ensures raised <==>
      (exists i :: 0 <= i < |FundTypes| && Filter(ranking.rows, EligibleMask(FundTypes[i])) == []) ||
      Filter(ranking.rows, SmallMask(small)) == []
    ensures var n := FirstBare(ranking.rows, FundTypes);
      |book| == n + (if raised then 0 else 1) && SheetsFor(book[..n], ranking, lookup, FundTypes[..n])
    ensures !raised ==> |book| == |FundTypes| + 1 && SmallSheetFor(book[|FundTypes|], ranking, lookup, small)
    ensures raised ==> widths == []
    ensures !raised ==> |widths| == |book| && forall s :: 0 <= s < |book| ==> CappedWidthsOf(widths[s], render(book[s]))
  {
    widths := [];
    book, raised := WriteTypeSheets(ranking, lookup);
    assert book[..|book|] == book;
    if raised {
      return;
    }
    var smallDf := FetchSmallFundData(ranking, small, lookup);
    if smallDf.Raised? {
      raised := true;
      return;
    }
    var typeSheets := book;
    book := SaveToExcel(book, smallDf.value, SmallSheet);
    assert book[..|typeSheets|] == typeSheets;
    var cells := seq(|book|, s requires 0 <= s < |book| => render(book[s]));
    widths := AdjustColumnWidth(cells);
  }

  /** `widths` holds the capped width of each column, in order. */
  predicate CappedWidthsOf(widths: seq<int>, columns: seq<seq<CellValue>>) {
    |widths| == |columns| && forall d :: 0 <= d < |columns| ==> widths[d] == CappedWidth(columns[d])
  }

  /* ---- adjust_column_width ---- */

  /** An openpyxl cell value, with what `str()` shows of it. */
  datatype CellValue = Blank | Text(s: string) | Number(isZero: bool, shown: string)

  /** Python truthiness of the value. */
  predicate Truthy(v: CellValue) {
    match v
    case Blank => false
    case Text(s) => s != ""
    case Number(z, _) => !z
  }

  /** `str(value)`. */
  function Shown(v: CellValue): string {
    match v
    case Blank => "None"
    case Text(s) => s
    case Number(_, s) => s
  }

  function TruthyMask(): CellValue -> bool {
    v => Truthy(v)
  }

  /** The running `max_length` over a column: the longest `str()` among the cells `counts` accepts, 0 when none. */
  function Longest(column: seq<CellValue>, counts: CellValue -> bool): (n: nat)
    ensures forall k :: 0 <= k < |column| && counts(column[k]) ==> |Shown(column[k])| <= n
    ensures n == 0 || exists k :: 0 <= k < |column| && counts(column[k]) && |Shown(column[k])| == n
  {
    if column == [] then 0
    else
      var init := column[..|column| - 1];
      var last := column[|column| - 1];
      var p := Longest(init, counts);
      assert forall k :: 0 <= k < |init| ==> init[k] == column[k];
      if counts(last) && |Shown(last)| > p then |Shown(last)| else p
  }

  /** `min(max_length + 2, 50)` over the truthy cells. */
  function CappedWidth(column: seq<CellValue>): int {
    var n := Longest(column, TruthyMask()) + 2;
    if n < 50 then n else 50
  }

  /** The width of one column, by the loop over its cells. */
  method ColumnWidth(column: seq<CellValue>) returns (w: int)
    ensures w == CappedWidth(column)
  {
    var maxLength := 0;
    for k := 0 to |column|
      invariant maxLength == Longest(column[..k], TruthyMask())
    {
      assert column[..k + 1][..k] == column[..k];
      var cell := column[k];
      if Truthy(cell) && |Shown(cell)| > maxLength {
        maxLength := |Shown(cell)|;
      }
    }
    assert column[..|column|] == column;
    w := maxLength + 2;
    if w >= 50 {
      w := 50;
    }
  }

  /**
   * A width lies between 2 and 50; it is 50 exactly when some truthy cell
   * shows at least 48 characters, and otherwise every truthy cell fits
   * with two to spare.
   */
  lemma WidthBounds(column: seq<CellValue>)
    ensures 2 <= CappedWidth(column) <= 50
    ensures CappedWidth(column) == 50 <==> exists k :: 0 <= k < |column| && Truthy(column[k]) && |Shown(column[k])| >= 48
    ensures CappedWidth(column) < 50 ==> forall k :: 0 <= k < |column| && Truthy(column[k]) ==> |Shown(column[k])| + 2 <= CappedWidth(column)
  {
    var n := Longest(column, TruthyMask());
    if n >= 48 {
      var k :| 0 <= k < |column| && TruthyMask()(column[k]) && |Shown(column[k])| == n;
      assert Truthy(column[k]);
    }
  }

  /** `adjust_column_width`: every column of every sheet gets its width. */
  method AdjustColumnWidth(book: seq<seq<seq<CellValue>>>) returns (widths: seq<seq<int>>)
    ensures |widths| == |book|
    ensures forall s :: 0 <= s < |book| ==> |widths[s]| == |book[s]|
    ensures forall s, c :: 0 <= s < |book| && 0 <= c < |book[s]| ==> widths[s][c] == CappedWidth(book[s][c])
  {
    widths := [];
    for s := 0 to |book|
      invariant |widths| == s
      invariant forall t :: 0 <= t < s ==> |widths[t]| == |book[t]|
      invariant forall t, c :: 0 <= t < s && 0 <= c < |book[t]| ==> widths[t][c] == CappedWidth(book[t][c])
    {
      var sheet: seq<int> := [];
      for c := 0 to |book[s]|
        invariant |sheet| == c
        invariant forall d :: 0 <= d < c ==> sheet[d] == CappedWidth(book[s][d])
      {
        var w := ColumnWidth(book[s][c]);
        sheet := sheet + [w];
      }
      widths := widths + [sheet];
    }
  }
}
