/**
 * The screening pipeline of `analyze_funds.py`: the open-fund ranking is
 * cut down by a keyword block-list and by four benchmark returns, the
 * excess returns are added, every row is enriched with the summed scale of
 * its share classes and with holding details, and four row filters trim
 * the result. The services the pipeline calls (the fund-name lookup, the
 * fund search, `get_fund_info`, the jiucaishuo reply, the top-10 weight
 * helper) are the fields of a `Providers` value.
 */
module AnalyzeFunds {
  import opened Common
  import opened Json
  import opened Decimal
  import FundSearchParser
  import JiuquanFund
  import FundDataProcessor

  /** A row of the open-fund ranking; `None` is a missing (NaN) cell. */
  datatype RankRow = RankRow(
    code: string,
    name: Option<string>,
    r1y: Option<real>,
    r6m: Option<real>,
    r3m: Option<real>,
    r1m: Option<real>)

  /** The benchmark returns (percent) the horizons are compared with. */
  const Bench1Y: real := 21.80
  const Bench6M: real := 19.48
  const Bench3M: real := 0.74
  const Bench1M: real := 3.25

  /** The block-list of name fragments, in the order the pipeline applies them. */
  const ExcludeKeywords: seq<string> := [
    "持有", "A", "通信", "期货", "有色", "黄金", "半导体", "芯片", "云计算", "商品", "创业板",
    "中证资源", "电信", "物联网", "工程机械", "医药生物", "稀有金属", "科创板",
    "科创创业", "人工智能", "上海金", "TMT", "指数", "可转债", "债券", "化工", "碳中和", "ESG", "ETF"]

  // ---------------------------------------------------------------- keywords

  /** `str.contains(kw, na=False)` on the name column. */
  predicate NameHas(row: RankRow, kw: string) {
    row.name.Some? && Contains(row.name.value, kw)
  }

  predicate ClearOf(row: RankRow, kws: seq<string>) {
    forall k :: 0 <= k < |kws| ==> !NameHas(row, kws[k])
  }

  function ClearMask(kws: seq<string>): RankRow -> bool {
    row => ClearOf(row, kws)
  }

  function LacksMask(kw: string): RankRow -> bool {
    row => !NameHas(row, kw)
  }

  lemma ClearOfStep(kws: seq<string>, i: nat)
    requires i < |kws|
    ensures forall row :: ClearMask(kws[..i + 1])(row) == (ClearMask(kws[..i])(row) && LacksMask(kws[i])(row))
  {
    forall row
      ensures ClearOf(row, kws[..i + 1]) == (ClearOf(row, kws[..i]) && !NameHas(row, kws[i]))
    {
      assert kws[..i + 1][i] == kws[i];
      assert forall k :: 0 <= k < i ==> kws[..i + 1][k] == kws[..i][k];
    }
  }

  /** The keyword loop: the frame is re-masked once per keyword. */
  method KeywordStage(frame: seq<RankRow>) returns (out: seq<RankRow>)
    ensures out == Filter(frame, ClearMask(ExcludeKeywords))
  {
    out := frame;
    var i := 0;
    assert ExcludeKeywords[..0] == [];
    FilterKeepsAll(frame, ClearMask([]));
    while i < |ExcludeKeywords|
      invariant 0 <= i <= |ExcludeKeywords|
      invariant out == Filter(frame, ClearMask(ExcludeKeywords[..i]))
    {
      ClearOfStep(ExcludeKeywords, i);
      FilterTwice(frame, ClearMask(ExcludeKeywords[..i]), LacksMask(ExcludeKeywords[i]), ClearMask(ExcludeKeywords[..i + 1]));
      out := Filter(out, LacksMask(ExcludeKeywords[i]));
      i := i + 1;
    }
    assert ExcludeKeywords[..i] == ExcludeKeywords;
  }

  /** A row survives the keyword stage exactly when its name holds none of the keywords. */
  lemma KeywordSurvivors(frame: seq<RankRow>, row: RankRow)
    ensures row in Filter(frame, ClearMask(ExcludeKeywords)) <==>
      row in frame && forall k :: 0 <= k < |ExcludeKeywords| ==> !NameHas(row, ExcludeKeywords[k])
  {
  }

  /** A row without a name is never dropped by a keyword. */
  lemma NamelessSurvives(frame: seq<RankRow>, row: RankRow)
    requires row in frame && row.name.None?
    ensures row in Filter(frame, ClearMask(ExcludeKeywords))
  {
  }

  /** The keyword "A" removes every name with a Latin capital A anywhere in it. */
  lemma LetterADrops(frame: seq<RankRow>, row: RankRow)
    requires row.name.Some? && 'A' in row.name.value
    ensures row !in Filter(frame, ClearMask(ExcludeKeywords))
  {
    ContainsChar(row.name.value, 'A');
    assert ExcludeKeywords[1] == "A";
    assert !ClearOf(row, ExcludeKeywords);
  }

  // ---------------------------------------------------------------- benchmarks

  /** `col >= bench` on a possibly missing cell: NaN compares false. */
  predicate AtLeast(v: Option<real>, bench: real) {
    v.Some? && v.value >= bench
  }

  predicate BeatsBenchmarks(row: RankRow) {
    AtLeast(row.r1y, Bench1Y) && AtLeast(row.r6m, Bench6M) && AtLeast(row.r3m, Bench3M) && AtLeast(row.r1m, Bench1M)
  }

  function Has6M(): RankRow -> bool { (row: RankRow) => row.r6m.Some? }
  function Beats1Y(): RankRow -> bool { (row: RankRow) => AtLeast(row.r1y, Bench1Y) }
  function Beats6M(): RankRow -> bool { (row: RankRow) => AtLeast(row.r6m, Bench6M) }
  function Beats3M(): RankRow -> bool { (row: RankRow) => AtLeast(row.r3m, Bench3M) }
  function Beats1M(): RankRow -> bool { (row: RankRow) => AtLeast(row.r1m, Bench1M) }

  /** `dropna(subset=['近6月'])`. */
  function DropMissing6M(frame: seq<RankRow>): (r: seq<RankRow>)
    ensures forall row :: row in r <==> row in frame && row.r6m.Some?
  {
    Filter(frame, Has6M())
  }

  /** The four benchmark masks, one after another. */
  function BenchmarkStage(frame: seq<RankRow>): seq<RankRow> {
    Filter(Filter(Filter(Filter(frame, Beats1Y()), Beats6M()), Beats3M()), Beats1M())
  }

  /** The four masks amount to one conjunction, so their order does not matter. */
  lemma BenchmarkConjunction(frame: seq<RankRow>)
    ensures BenchmarkStage(frame) == Filter(frame, row => BeatsBenchmarks(row))
  {
    var p12 := (row: RankRow) => AtLeast(row.r1y, Bench1Y) && AtLeast(row.r6m, Bench6M);
    var p123 := (row: RankRow) => p12(row) && AtLeast(row.r3m, Bench3M);
    FilterTwice(frame, Beats1Y(), Beats6M(), p12);
    FilterTwice(frame, p12, Beats3M(), p123);
    FilterTwice(frame, p123, Beats1M(), row => BeatsBenchmarks(row));
  }

  /** Applying the 6-month mask first gives the same frame. */
  lemma BenchmarkOrderFree(frame: seq<RankRow>)
    ensures BenchmarkStage(frame) == Filter(Filter(Filter(Filter(frame, Beats6M()), Beats1Y()), Beats3M()), Beats1M())
  {
    FilterCommute(frame, Beats1Y(), Beats6M());
  }

  // ---------------------------------------------------------------- screened rows

  /**
   * A row after the benchmark stage with the columns the pipeline adds:
   * the four excess returns, 成立时间, 最新规模, 换手率, 前10大重仓股占比 and
   * 持股行业集中度.
   */
  datatype Screened = Screened(
    fund: RankRow,
    e1y: real, e6m: real, e3m: real, e1m: real,
    listed: JValue,
    scale: string,
    turnover: JValue,
    top10: JValue,
    concentration: JValue)

  /** The excess columns and the empty detail cells of one surviving row. */
  function AddColumns(row: RankRow): (r: Screened)
    requires BeatsBenchmarks(row)
    ensures r.fund == row
    ensures r.e1y >= 0.0 && r.e6m >= 0.0 && r.e3m >= 0.0 && r.e1m >= 0.0
    ensures r.e1y + Bench1Y == row.r1y.value && r.e6m + Bench6M == row.r6m.value
    ensures r.e3m + Bench3M == row.r3m.value && r.e1m + Bench1M == row.r1m.value
    ensures r.scale == "" && r.turnover == JStr("") && r.top10 == JStr("") && r.concentration == JStr("")
  {
    Screened(row,
      row.r1y.value - Bench1Y, row.r6m.value - Bench6M, row.r3m.value - Bench3M, row.r1m.value - Bench1M,
      JStr(""), "", JStr(""), JStr(""), JStr(""))
  }

  function AddAllColumns(frame: seq<RankRow>): (r: seq<Screened>)
    requires forall row :: row in frame ==> BeatsBenchmarks(row)
    ensures |r| == |frame| && forall i :: 0 <= i < |frame| ==> r[i] == AddColumns(frame[i])
  {
    if frame == [] then [] else [AddColumns(frame[0])] + AddAllColumns(frame[1..])
  }

  // ---------------------------------------------------------------- scale

  /** The length of the longest prefix of `s` made of digits and '.' (`[\d.]+` taken greedily). */
  function NumRun(s: string): (n: nat)
    ensures n <= |s|
    ensures forall i :: 0 <= i < n ==> IsNumChar(s[i])
    ensures n < |s| ==> !IsNumChar(s[n])
  {
    if s != [] && IsNumChar(s[0]) then 1 + NumRun(s[1..]) else 0
  }

  lemma {:induction false} NumRunOf(a: string, b: string)
    requires forall i :: 0 <= i < |a| ==> IsNumChar(a[i])
    requires b == [] || !IsNumChar(b[0])
    ensures NumRun(a + b) == |a|
  {
    if a != [] {
      assert (a + b)[0] == a[0];
      assert (a + b)[1..] == a[1..] + b;
      NumRunOf(a[1..], b);
    } else {
      assert a + b == b;
    }
  }

  /**
   * The group of `re.search(r'([\d.]+)亿元', s)`: the first maximal run of
   * digits and '.' that is immediately followed by "亿元". A match can only
   * begin where such a run begins, since `[\d.]+` must stop right before '亿'.
   */
  function YiAmount(s: string): (r: Option<string>)
    ensures r.Some? ==> |r.value| > 0 && (forall i :: 0 <= i < |r.value| ==> IsNumChar(r.value[i]))
    ensures r.Some? ==> Contains(s, r.value + "亿元")
    decreases |s|
  {
    if s == [] then None
    else if !IsNumChar(s[0]) then
      var r := YiAmount(s[1..]);
      assert r.Some? ==> Contains(s, r.value + "亿元");
      r
    else
      var n := NumRun(s);
      if StartsWith(s[n..], "亿元") then
        assert s[..n + 2] == s[..n] + "亿元";
        assert StartsWith(s, s[..n] + "亿元");
        Some(s[..n])
      else
        var r := YiAmount(s[n..]);
        assert r.Some? ==> Contains(s, r.value + "亿元") by {
          if r.Some? {
            ContainsIff(s[n..], r.value + "亿元");
            var j :| MatchAt(s[n..], r.value + "亿元", j);
            assert s[n + j..n + j + |r.value + "亿元"|] == s[n..][j..j + |r.value + "亿元"|];
            assert MatchAt(s, r.value + "亿元", n + j);
            ContainsAt(s, r.value + "亿元", n + j);
          }
        }
        r
  }

  /** A cell written by the accumulation reads back, through the same pattern, as its number. */
  lemma YiAmountOfFormatted(x: real)
    requires x >= 0.0
    ensures YiAmount(Fmt2(x) + "亿元") == Some(Fmt2(x))
  {
    var f := Fmt2(x);
    Fmt2Chars(x);
    var s := f + "亿元";
    NumRunOf(f, "亿元");
    assert s[0] == f[0];
    assert s[|f|..] == "亿元";
  }

  /** "" (nothing written yet) holds no amount. */
  lemma YiAmountEmpty()
    ensures YiAmount("") == None
  {
  }

  /** What `info['最新规模']` yields for a sibling's `get_fund_info` outcome; anything but a dictionary holding a string raises. */
  function SiblingScale(info: Outcome<JValue>): (r: Outcome<string>)
    ensures r.Returned? <==> info.Returned? && info.value.JObj? && "最新规模" in info.value.fields && info.value.fields["最新规模"].JStr?
    ensures r.Returned? ==> r.value == info.value.fields["最新规模"].s
  {
    match info
    case Raised => Raised
    case Returned(v) =>
      if v.JObj? && "最新规模" in v.fields && v.fields["最新规模"].JStr? then Returned(v.fields["最新规模"].s) else Raised
  }

  /**
   * What `re.search(r'([\d.]+)亿元', s)` followed by `float(group)` makes of
   * a text: `Some(None)` when nothing matches, `None` when `float()` raises
   * (a malformed amount such as "1.2.3"), else the amount.
   */
  function Amount(s: string): (r: Option<Option<real>>)
    ensures YiAmount(s).None? ==> r == Some(None)
    ensures YiAmount(s).Some? ==> (r.None? <==> ParseFloat(YiAmount(s).value).None?)
    ensures YiAmount(s).Some? && r.Some? ==> r.value == ParseFloat(YiAmount(s).value)
    ensures r.Some? && r.value.Some? ==> r.value.value >= 0.0
  {
    match YiAmount(s)
    case None => Some(None)
    case Some(h) =>
      NumCharsNonNegative(h);
      if ParseFloat(h).None? then None else Some(ParseFloat(h))
  }

  /**
   * One pass of the accumulation: a sibling text without an amount leaves
   * the cell alone; otherwise the amount is added to the number the cell
   * holds (0 when it holds none) and the cell is rewritten as "%.2f亿元".
   */
  function AddScale(cell: string, text: string): (r: Outcome<string>)
    ensures Amount(text) == Some(None) ==> r == Returned(cell)
    ensures Amount(text).None? || (Amount(text).value.Some? && Amount(cell).None?) ==> r.Raised?
    ensures Amount(text).Some? && Amount(text).value.Some? && Amount(cell).Some? ==>
      r == Returned(Render(Some(Added(Amount(cell).value, Amount(text).value.value))))
  {
    match Amount(text)
    case None => Raised
    case Some(None) => Returned(cell)
    case Some(Some(v)) =>
      match Amount(cell)
      case None => Raised
      case Some(cur) => Returned(Render(Some(Added(cur, v))))
  }

  /** `current_scale + scale_value`, the current value being 0 when the cell holds none. */
  function Added(cur: Option<real>, v: real): real {
    (if cur.None? then 0.0 else cur.value) + v
  }

  /** The cell as it stands: nothing yet, or "%.2f亿元" of the running total. */
  function Render(total: Option<real>): string {
    if total.None? then "" else Fmt2(total.value) + "亿元"
  }

  /** The accumulation over the search hits, in their order; any exception escapes. */
  function ScaleOver(cell: string, hits: seq<FundSearchParser.SearchHit>, info: JValue -> Outcome<JValue>): Outcome<string>
    decreases |hits|
  {
    if hits == [] then Returned(cell)
    else match SiblingScale(info(hits[0].code))
      case Raised => Raised
      case Returned(t) =>
        match AddScale(cell, t)
        case Raised => Raised
        case Returned(c) => ScaleOver(c, hits[1..], info)
  }

  /** The scale loop over the share classes, with its running cell. */
  method AccumulateScale(hits: seq<FundSearchParser.SearchHit>, info: JValue -> Outcome<JValue>) returns (r: Outcome<string>)
    ensures r == ScaleOver("", hits, info)
  {
    var cell := "";
    var i := 0;
    while i < |hits|
      invariant 0 <= i <= |hits|
      invariant ScaleOver("", hits, info) == ScaleOver(cell, hits[i..], info)
    {
      assert hits[i..][0] == hits[i] && hits[i..][1..] == hits[i + 1..];
      var t := SiblingScale(info(hits[i].code));
      if t.Raised? {
        return Raised;
      }
      var c := AddScale(cell, t.value);
      if c.Raised? {
        return Raised;
      }
      cell := c.value;
      i := i + 1;
    }
    return Returned(cell);
  }

  // The numeric reading of the accumulation.

  /** The amounts of the hits whose scale text carries one, in order. */
  function MatchedAmounts(hits: seq<FundSearchParser.SearchHit>, info: JValue -> Outcome<JValue>): seq<real>
    decreases |hits|
  {
    if hits == [] then []
    else
      var rest := MatchedAmounts(hits[1..], info);
      match SiblingScale(info(hits[0].code))
      case Raised => rest
      case Returned(t) =>
        match Amount(t)
        case Some(Some(v)) => [v] + rest
        case _ => rest
  }

  function Sum(vs: seq<real>): real {
    if vs == [] then 0.0 else vs[0] + Sum(vs[1..])
  }


  /** The running total after adding `vs`: each step adds to the two-decimal reading of the previous cell. */
  function Chain(total: Option<real>, vs: seq<real>): Option<real>
    decreases |vs|
  {
    if vs == [] then total
    else Chain(Next(total, vs[0]), vs[1..])
  }

  /** Adding one sibling's text to a rendered total renders the next total. */
  lemma AddScaleRendered(total: Option<real>, t: string)
    requires total.Some? ==> total.value >= 0.0
    requires Amount(t).Some?
    ensures Amount(t) == Some(None) ==> AddScale(Render(total), t) == Returned(Render(total))
    ensures Amount(t).value.Some? ==> AddScale(Render(total), t) == Returned(Render(Next(total, Amount(t).value.value)))
  {
    CellAmountRendered(total);
  }

  /** A rendered total reads back as its two-decimal rounding. */
  lemma CellAmountRendered(total: Option<real>)
    requires total.Some? ==> total.value >= 0.0
    ensures Amount(Render(total)) == Some(Rounded(total))
  {
    if total.Some? {
      var f := Fmt2(total.value);
      YiAmountOfFormatted(total.value);
      Fmt2RoundTrip(total.value);
      assert YiAmount(Render(total)) == Some(f);
      assert ParseFloat(f) == Some(Round2(total.value));
    }
  }

  /** The two-decimal reading of the cell the next amount is added to. */
  function Rounded(total: Option<real>): Option<real> {
    if total.None? then None else Some(Round2(total.value))
  }

  /** The running total once `v` is added to the cell holding `total`. */
  function Next(total: Option<real>, v: real): Option<real> {
    Some(Added(Rounded(total), v))
  }

  /** The cell the loop ends with is the rendering of the chained total of the matched amounts. */
  lemma {:induction false} ScaleOverChain(total: Option<real>, hits: seq<FundSearchParser.SearchHit>, info: JValue -> Outcome<JValue>)
    requires total.Some? ==> total.value >= 0.0
    requires ScaleOver(Render(total), hits, info).Returned?
    ensures ScaleOver(Render(total), hits, info) == Returned(Render(Chain(total, MatchedAmounts(hits, info))))
    ensures forall k :: 0 <= k < |MatchedAmounts(hits, info)| ==> MatchedAmounts(hits, info)[k] >= 0.0
    decreases |hits|
  {
    if hits != [] {
      var t := SiblingScale(info(hits[0].code)).value;
      var rest := MatchedAmounts(hits[1..], info);
      AddScaleRendered(total, t);
      if Amount(t).value.None? {
        ScaleOverChain(total, hits[1..], info);
      } else {
        var v := Amount(t).value.value;
        ScaleOverChain(Next(total, v), hits[1..], info);
        assert MatchedAmounts(hits, info) == [v] + rest;
      }
    }
  }

  /** Each step's rounding moves the total by at most half a hundredth. */
  lemma {:induction false} ChainError(total: Option<real>, vs: seq<real>, base: real, steps: nat)
    requires total.None? ==> base == 0.0 && steps == 0
    requires total.Some? ==> base - 0.005 * steps as real <= total.value <= base + 0.005 * steps as real
    ensures Chain(total, vs).None? <==> total.None? && vs == []
    decreases |vs|
    ensures Chain(total, vs).Some? ==>
      var n := if total.None? then |vs| - 1 else steps + |vs|;
      base + Sum(vs) - 0.005 * n as real <= Chain(total, vs).value <= base + Sum(vs) + 0.005 * n as real
  {
    if vs != [] {
      var next := Next(total, vs[0]);
      var s := if total.None? then 0 else steps + 1;
      ChainError(next, vs[1..], base + vs[0], s);
    }
  }

  /**
   * The 最新规模 cell of a row: "" when no share class matched
   * `([\d.]+)亿元`, otherwise "%.2f亿元" of a total that differs from the
   * sum of the matched amounts by at most 0.005 per rounding step.
   */
  lemma ScaleCellMeaning(hits: seq<FundSearchParser.SearchHit>, info: JValue -> Outcome<JValue>)
    requires ScaleOver("", hits, info).Returned?
    ensures var vs := MatchedAmounts(hits, info);
      var cell := ScaleOver("", hits, info).value;
      (cell == "" <==> vs == []) &&
      (vs != [] ==> exists x :: (x >= 0.0 && cell == Fmt2(x) + "亿元" &&
         Sum(vs) - 0.005 * (|vs| - 1) as real <= x <= Sum(vs) + 0.005 * (|vs| - 1) as real))
  {
    var vs := MatchedAmounts(hits, info);
    assert Render(None) == "";
    ScaleOverChain(None, hits, info);
    ChainError(None, vs, 0.0, 0);
    var c := Chain(None, vs);
    if vs != [] {
      ChainNonNegative(None, vs);
      assert Render(c) == Fmt2(c.value) + "亿元";
      assert |Render(c)| > 0;
    }
  }

  lemma {:induction false} ChainNonNegative(total: Option<real>, vs: seq<real>)
    requires total.Some? ==> total.value >= 0.0
    requires forall k :: 0 <= k < |vs| ==> vs[k] >= 0.0
    ensures Chain(total, vs).Some? ==> Chain(total, vs).value >= 0.0
    decreases |vs|
  {
    if vs != [] {
      ChainNonNegative(Next(total, vs[0]), vs[1..]);
    }
  }

  // ---------------------------------------------------------------- enrichment

  /**
   * The services the enrichment loop calls, as functions of their
   * arguments: `get_fund_name_by_code`, the HTTP reply of the fund search,
   * `get_fund_info`, the HTTP reply of the jiucaishuo detail request,
   * `get_top10_stocks_weight_robust`, and `json.loads`.
   */
  datatype Providers = Providers(
    nameOf: string -> Option<string>,
    searchReply: string -> Outcome<string>,
    info: JValue -> Outcome<JValue>,
    detailReply: string -> Outcome<string>,
    top10: string -> Outcome<Option<real>>,
    loads: string -> Option<JValue>)

  /** The three detail columns the jiucaishuo result may fill. */
  datatype Column = Turnover | Top10 | Concentration

  function Key(c: Column): string {
    match c
    case Turnover => "换手率"
    case Top10 => "前10大重仓股占比"
    case Concentration => "持股行业集中度"
  }

  function Cell(row: Screened, c: Column): JValue {
    match c
    case Turnover => row.turnover
    case Top10 => row.top10
    case Concentration => row.concentration
  }

  function Put(row: Screened, c: Column, v: JValue): (r: Screened)
    ensures Cell(r, c) == v
    ensures forall d :: d != c ==> Cell(r, d) == Cell(row, d)
    ensures r.fund == row.fund && r.scale == row.scale && r.listed == row.listed
    ensures r.e1y == row.e1y && r.e6m == row.e6m && r.e3m == row.e3m && r.e1m == row.e1m
  {
    match c
    case Turnover => row.(turnover := v)
    case Top10 => row.(top10 := v)
    case Concentration => row.(concentration := v)
  }

  /** Part of the `try` block: `Stop` when an exception ends it; either way the row holds the writes made so far. */
  datatype Step = Go(row: Screened) | Stop(row: Screened)

  /**
   * `if key in detail: row[key] = detail[key]`. The test is `in` on whatever
   * the detail is (a substring test on a string); the subscript raises
   * unless the detail is a dictionary.
   */
  function WriteDetail(row: Screened, detail: JValue, c: Column): (r: Step)
    ensures PyIn(Key(c), detail).None? ==> r == Stop(row)
    ensures PyIn(Key(c), detail) == Some(false) ==> r == Go(row)
    ensures PyIn(Key(c), detail) == Some(true) && !detail.JObj? ==> r == Stop(row)
    ensures detail.JObj? && Key(c) in detail.fields ==> r == Go(Put(row, c, detail.fields[Key(c)]))
  {
    match PyIn(Key(c), detail)
    case None => Stop(row)
    case Some(false) => Go(row)
    case Some(true) => if detail.JObj? then Go(Put(row, c, detail.fields[Key(c)])) else Stop(row)
  }

  /** The three `if key in fund_detail` writes, in order. */
  function DetailWrites(row: Screened, detail: JValue): (r: Step)
    ensures SameFund(r.row, row) && r.row.listed == row.listed
  {
    match WriteDetail(row, detail, Turnover)
    case Stop(r) => Stop(r)
    case Go(r1) =>
      match WriteDetail(r1, detail, Top10)
      case Stop(r) => Stop(r)
      case Go(r2) => WriteDetail(r2, detail, Concentration)
  }

  /**
   * The akshare fallback for a blank top-10 cell, writing "%.2f%%". A list in
   * the cell makes the `pd.isna(...) or ...` test raise.
   */
  function Top10Fallback(row: Screened, top10: string -> Outcome<Option<real>>): (r: Screened)
    ensures r.fund == row.fund && r.scale == row.scale && r.listed == row.listed
    ensures r.turnover == row.turnover && r.concentration == row.concentration
    ensures r.e1y == row.e1y && r.e6m == row.e6m && r.e3m == row.e3m && r.e1m == row.e1m
    ensures r.top10 != row.top10 ==>
      (row.top10 == JNull || row.top10 == JStr("")) &&
      top10(row.fund.code).Returned? && top10(row.fund.code).value.Some? &&
      r.top10 == JStr(Fmt2(top10(row.fund.code).value.value) + "%")
  {
    if row.top10 == JNull || row.top10 == JStr("") then
      match top10(row.fund.code)
      case Returned(Some(w)) => row.(top10 := JStr(Fmt2(w) + "%"))
      case _ => row
    else row
  }

  /**
   * The `try` block of one row: `get_fund_info(code)['成立时间']` into
   * 成立时间, the jiucaishuo result into the detail columns, then the
   * top-10 fallback. An exception keeps whatever was written before it.
   */
  function DetailStep(row: Screened, p: Providers): (r: Screened)
    ensures SameFund(r, row)
  {
    match p.info(JStr(row.fund.code))
    case Raised => row
    case Returned(info) =>
      if !(info.JObj? && "成立时间" in info.fields) then row
      else DetailsFrom(row.(listed := info.fields["成立时间"]), JiuquanFund.ParseFundData(p.detailReply(row.fund.code), p.loads), p.top10)
  }

  /** The rest of the `try` block once 成立时间 is written, given what `parse_fund_data` returned. */
  function DetailsFrom(row: Screened, detail: Option<JValue>, top10: string -> Outcome<Option<real>>): (r: Screened)
    ensures SameFund(r, row) && r.listed == row.listed
  {
    var s := if detail.Some? && Truthy(detail.value) then DetailWrites(row, detail.value) else Go(row);
    if s.Stop? then s.row else Top10Fallback(s.row, top10)
  }

  /** Two rows of the same fund with the same scale cell and excess returns. */
  predicate SameFund(a: Screened, b: Screened) {
    a.fund == b.fund && a.scale == b.scale && a.e1y == b.e1y && a.e6m == b.e6m && a.e3m == b.e3m && a.e1m == b.e1m
  }

  /** How one iteration of the enrichment loop ends. */
  datatype RowStep =
    | NameMissing          // `return None`: the whole run stops
    | Escaped              // an exception outside the `try` ends the whole run
    | Enriched(row: Screened)

  /**
   * One iteration: look the name up, search the share classes of its base
   * name, accumulate their scale, then the detail `try` block. An error
   * reply from the search skips the rest of the iteration, detail fetch
   * included.
   */
  function EnrichRow(row: Screened, p: Providers): (r: RowStep)
    ensures r == NameMissing <==> p.nameOf(row.fund.code).None? || p.nameOf(row.fund.code).value == ""
  {
    var name := p.nameOf(row.fund.code);
    if name.None? || name.value == "" then NameMissing
    else
      match FundSearchParser.FetchAndParse(p.searchReply(FundDataProcessor.BaseName(name.value)), p.loads)
      case Hits(hits) =>
        (match ScaleOver(row.scale, hits, p.info)
         case Raised => Escaped
         case Returned(cell) => Enriched(DetailStep(row.(scale := cell), p)))
      case _ => Enriched(row)
  }

  /** How the enrichment loop ends: `return None`, an escaping exception, or the enriched frame. */
  datatype Run = Aborted | Crashed | Report(rows: seq<Screened>)

  /** The enrichment loop over the frame, row by row from the top. */
  function EnrichAll(frame: seq<Screened>, p: Providers): (r: Run)
    ensures r.Report? ==> (|r.rows| == |frame| &&
      forall k :: 0 <= k < |frame| ==> EnrichRow(frame[k], p) == Enriched(r.rows[k]))
  {
    Walk(frame, Stepper(p))
  }

  function Stepper(p: Providers): Screened -> RowStep {
    row => EnrichRow(row, p)
  }

  /** The same loop for any body `step`: stop at the first row that does not end normally. */
  function Walk(frame: seq<Screened>, step: Screened -> RowStep): (r: Run)
    ensures r.Report? ==> (|r.rows| == |frame| &&
      forall k :: 0 <= k < |frame| ==> step(frame[k]) == Enriched(r.rows[k]))
    decreases |frame|
  {
    if frame == [] then Report([])
    else match step(frame[0])
      case NameMissing => Aborted
      case Escaped => Crashed
      case Enriched(row) =>
        match Walk(frame[1..], step)
        case Report(rest) =>
          assert forall k :: 1 <= k < |frame| ==> frame[k] == frame[1..][k - 1] && ([row] + rest)[k] == rest[k - 1];
          Report([row] + rest)
        case other => other
  }

  /** The run is aborted exactly when some row's name is missing and every row above it was enriched. */
  lemma EnrichAllAborted(frame: seq<Screened>, p: Providers)
    ensures EnrichAll(frame, p) == Aborted <==>
      exists i :: 0 <= i < |frame| && EnrichRow(frame[i], p) == NameMissing && EnrichedUpTo(frame, p, i)
  {
    WalkAborted(frame, Stepper(p));
    assert forall i :: 0 <= i < |frame| ==> Stepper(p)(frame[i]) == EnrichRow(frame[i], p);
    assert forall i :: 0 <= i <= |frame| ==> (StepsUpTo(frame, Stepper(p), i) <==> EnrichedUpTo(frame, p, i));
  }

  /** Every row before position `i` ended the body normally. */
  predicate StepsUpTo(frame: seq<Screened>, step: Screened -> RowStep, i: nat)
    requires i <= |frame|
  {
    forall k :: 0 <= k < i ==> step(frame[k]).Enriched?
  }

  /** For any body: the loop is aborted exactly when some row stops it so and every row above it ended normally. */
  lemma {:induction false} WalkAborted(frame: seq<Screened>, step: Screened -> RowStep)
    ensures Walk(frame, step) == Aborted <==>
      exists i :: 0 <= i < |frame| && step(frame[i]) == NameMissing && StepsUpTo(frame, step, i)
    decreases |frame|
  {
    if frame != [] {
      WalkAborted(frame[1..], step);
      if step(frame[0]).Enriched? {
        assert forall i :: 0 < i <= |frame| ==> (StepsUpTo(frame, step, i) <==> StepsUpTo(frame[1..], step, i - 1)) by {
          forall i | 0 < i <= |frame| ensures StepsUpTo(frame, step, i) <==> StepsUpTo(frame[1..], step, i - 1) {
            assert forall k :: 0 <= k < i - 1 ==> frame[1..][k] == frame[k + 1];
            if StepsUpTo(frame[1..], step, i - 1) {
              forall k | 0 <= k < i ensures step(frame[k]).Enriched? {
                if k > 0 { assert frame[k] == frame[1..][k - 1]; }
              }
            }
          }
        }
        if Walk(frame, step) == Aborted {
          var j :| 0 <= j < |frame[1..]| && step(frame[1..][j]) == NameMissing && StepsUpTo(frame[1..], step, j);
          assert step(frame[j + 1]) == NameMissing;
        }
        if exists i :: 0 <= i < |frame| && step(frame[i]) == NameMissing && StepsUpTo(frame, step, i) {
          var i :| 0 <= i < |frame| && step(frame[i]) == NameMissing && StepsUpTo(frame, step, i);
          assert i > 0;
          assert step(frame[1..][i - 1]) == NameMissing;
        }
      } else {
        assert StepsUpTo(frame, step, 0);
        if Walk(frame, step) != Aborted {
          forall i | 0 <= i < |frame| && step(frame[i]) == NameMissing
            ensures !StepsUpTo(frame, step, i)
          {
            assert i > 0;
          }
        }
      }
    }
  }

  /** Every row before position `i` went through the loop body to its end. */
  predicate EnrichedUpTo(frame: seq<Screened>, p: Providers, i: nat)
    requires i <= |frame|
  {
    forall k :: 0 <= k < i ==> EnrichRow(frame[k], p).Enriched?
  }

  /** The enrichment loop: cells are written into the frame row by row. */
  method Enrich(frame: seq<Screened>, p: Providers) returns (r: Run)
    ensures r == EnrichAll(frame, p)
  {
    r := WalkRows(frame, Stepper(p));
  }

  /** The loop for any body `step`, writing each finished row back in place. */
  method WalkRows(frame: seq<Screened>, step: Screened -> RowStep) returns (r: Run)
    ensures r == Walk(frame, step)
  {
    var rows := frame;
    var i := 0;
    while i < |frame|
      invariant 0 <= i <= |frame| && |rows| == |frame|
      invariant Walk(frame, step) == Resume(rows[..i], Walk(frame[i..], step))
    {
      assert frame[i..][0] == frame[i] && frame[i..][1..] == frame[i + 1..];
      var out := step(frame[i]);
      if out.NameMissing? {
        return Aborted;
      }
      if out.Escaped? {
        return Crashed;
      }
      ResumeAppend(rows[..i], out.row, Walk(frame[i + 1..], step));
      rows := rows[i := out.row];
      assert rows[..i + 1] == rows[..i] + [out.row];
      i := i + 1;
    }
    assert rows[..i] == rows;
    return Report(rows);
  }

  /** The rows already enriched, in front of the outcome of the rest of the loop. */
  function Resume(done: seq<Screened>, rest: Run): Run {
    match rest
    case Report(rows) => Report(done + rows)
    case other => other
  }

  lemma ResumeAppend(done: seq<Screened>, row: Screened, rest: Run)
    ensures Resume(done, Resume([row], rest)) == Resume(done + [row], rest)
  {
    if rest.Report? {
      assert done + ([row] + rest.rows) == done + [row] + rest.rows;
    }
  }

  // Facts about one iteration.

  /** What `parse_fund_data(code)` returns for the row. */
  function DetailOf(row: Screened, p: Providers): Option<JValue> {
    JiuquanFund.ParseFundData(p.detailReply(row.fund.code), p.loads)
  }

  /** An error reply of the search, whatever its kind, leaves the row as it was: no scale, no details. */
  lemma SearchErrorSkipsRow(row: Screened, p: Providers)
    requires p.nameOf(row.fund.code).Some? && p.nameOf(row.fund.code).value != ""
    requires !FundSearchParser.FetchAndParse(p.searchReply(FundDataProcessor.BaseName(p.nameOf(row.fund.code).value)), p.loads).Hits?
    ensures EnrichRow(row, p) == Enriched(row)
  {
  }

  /** A failed search request is such an error reply. */
  lemma SearchRequestFailureSkipsRow(row: Screened, p: Providers)
    requires p.nameOf(row.fund.code).Some? && p.nameOf(row.fund.code).value != ""
    requires p.searchReply(FundDataProcessor.BaseName(p.nameOf(row.fund.code).value)).Raised?
    ensures EnrichRow(row, p) == Enriched(row)
  {
    SearchErrorSkipsRow(row, p);
  }

  /** A detail that is not a dictionary writes none of the three columns. */
  lemma NonObjectDetailWritesNothing(row: Screened, d: JValue)
    requires !d.JObj?
    ensures DetailWrites(row, d).row == row
  {
  }

  /** A written detail column holds the dictionary's value under its key. */
  lemma DetailWritesCell(row: Screened, d: JValue, c: Column)
    ensures var r := DetailWrites(row, d).row;
      Cell(r, c) == Cell(row, c) || (d.JObj? && Key(c) in d.fields && Cell(r, c) == d.fields[Key(c)])
  {
  }

  /** 换手率 and 持股行业集中度 of one row: untouched, or copied from a dictionary returned by `parse_fund_data`. */
  lemma DetailStepCell(row: Screened, p: Providers, c: Column)
    requires c != Top10
    ensures var r := DetailStep(row, p);
      Cell(r, c) == Cell(row, c) ||
      (DetailOf(row, p).Some? && DetailOf(row, p).value.JObj? && Key(c) in DetailOf(row, p).value.fields &&
       Cell(r, c) == DetailOf(row, p).value.fields[Key(c)])
  {
    match p.info(JStr(row.fund.code)) {
      case Raised =>
      case Returned(info) =>
        if info.JObj? && "成立时间" in info.fields {
          var r1 := row.(listed := info.fields["成立时间"]);
          var d := DetailOf(row, p);
          assert DetailStep(row, p) == DetailsFrom(r1, d, p.top10);
          if d.Some? && Truthy(d.value) {
            DetailWritesCell(r1, d.value, c);
          }
        }
    }
  }

  /**
   * 前10大重仓股占比 of one row: untouched, copied from a dictionary returned
   * by `parse_fund_data`, or the fallback's "%.2f%%" of the akshare weight.
   */
  lemma DetailStepTop10(row: Screened, p: Providers)
    ensures var r := DetailStep(row, p);
      r.top10 == row.top10 ||
      (DetailOf(row, p).Some? && DetailOf(row, p).value.JObj? && Key(Top10) in DetailOf(row, p).value.fields &&
       r.top10 == DetailOf(row, p).value.fields[Key(Top10)]) ||
      (p.top10(row.fund.code).Returned? && p.top10(row.fund.code).value.Some? &&
       r.top10 == JStr(Fmt2(p.top10(row.fund.code).value.value) + "%"))
  {
    match p.info(JStr(row.fund.code)) {
      case Raised =>
      case Returned(info) =>
        if info.JObj? && "成立时间" in info.fields {
          var r1 := row.(listed := info.fields["成立时间"]);
          var d := DetailOf(row, p);
          assert DetailStep(row, p) == DetailsFrom(r1, d, p.top10);
          if d.Some? && Truthy(d.value) {
            DetailWritesCell(r1, d.value, Top10);
          }
        }
    }
  }

  /**
   * `parse_fund_data` hands back the turnover text itself, so the `in` tests
   * are substring tests and any hit raises on the subscript: for a string
   * detail nothing is ever written to 换手率 or 持股行业集中度.
   */
  lemma StringDetailLeavesColumns(row: Screened, p: Providers)
    requires DetailOf(row, p).Some? && DetailOf(row, p).value.JStr?
    ensures DetailStep(row, p).turnover == row.turnover
    ensures DetailStep(row, p).concentration == row.concentration
  {
    DetailStepCell(row, p, Turnover);
    DetailStepCell(row, p, Concentration);
  }

  /** A cell the accumulation can leave behind: nothing, or "%.2f亿元" of a non-negative total. */
  ghost predicate ScaleShaped(cell: string) {
    cell == "" || exists x :: x >= 0.0 && cell == Render(Some(x))
  }

  /** One iteration keeps the fund and its excess returns, and leaves a scale cell of that shape. */
  lemma EnrichRowShape(row: Screened, p: Providers)
    requires row.scale == ""
    requires EnrichRow(row, p).Enriched?
    ensures var r := EnrichRow(row, p).row;
      r.fund == row.fund && r.e1y == row.e1y && r.e6m == row.e6m && r.e3m == row.e3m && r.e1m == row.e1m &&
      ScaleShaped(r.scale)
  {
    var name := p.nameOf(row.fund.code);
    match FundSearchParser.FetchAndParse(p.searchReply(FundDataProcessor.BaseName(name.value)), p.loads) {
      case Hits(hits) =>
        ScaleCellMeaning(hits, p.info);
        var cell := ScaleOver("", hits, p.info).value;
        if cell != "" {
          var x :| x >= 0.0 && cell == Fmt2(x) + "亿元" &&
            Sum(MatchedAmounts(hits, p.info)) - 0.005 * (|MatchedAmounts(hits, p.info)| - 1) as real <= x;
          assert cell == Render(Some(x));
        }
      case _ =>
    }
  }

  // ---------------------------------------------------------------- row filters

  /**
   * The common shape of `filter_by_turnover` and `filter_by_top10_holdings`:
   * a missing, blank or "获取失败" cell is kept; a cell holding "%" is kept
   * when `float(cell.replace("%", ""))` passes `accept`; any other cell is
   * dropped. `"%" in cell` raises on a number, `.replace` raises on a
   * dictionary, `float()` raises on malformed text, and a list makes the
   * `pd.isna(...) or ...` test raise; none of these is caught.
   */
  function PercentRule(cell: JValue, accept: real -> bool): (r: Outcome<bool>)
    ensures cell == JNull || cell == JStr("") || cell == JStr("获取失败") ==> r == Returned(true)
    ensures cell.JStr? && cell.s != "" && cell.s != "获取失败" ==>
      (Contains(cell.s, "%") ==>
         (ParseFloat(RemoveChar(cell.s, '%')).None? ==> r.Raised?) &&
         (ParseFloat(RemoveChar(cell.s, '%')).Some? ==> r == Returned(accept(ParseFloat(RemoveChar(cell.s, '%')).value)))) &&
      (!Contains(cell.s, "%") ==> r == Returned(false))
    ensures cell.JNum? || cell.JBool? || cell.JArr? ==> r.Raised?
  {
    if cell == JNull || cell == JStr("") || cell == JStr("获取失败") then Returned(true)
    else if cell.JArr? then Raised
    else match PyIn("%", cell)
      case None => Raised
      case Some(false) => Returned(false)
      case Some(true) =>
        if !cell.JStr? then Raised
        else match ParseFloat(RemoveChar(cell.s, '%'))
          case None => Raised
          case Some(v) => Returned(accept(v))
  }

  /** `filter_by_turnover`: kept as written, it keeps turnovers of at least 200%. */
  function TurnoverKeep(cell: JValue): (r: Outcome<bool>)
    ensures cell == JNull || cell == JStr("") || cell == JStr("获取失败") ==> r == Returned(true)
    ensures cell.JStr? && cell.s != "" && cell.s != "获取失败" && Contains(cell.s, "%") ==>
      (ParseFloat(RemoveChar(cell.s, '%')).None? ==> r.Raised?) &&
      (ParseFloat(RemoveChar(cell.s, '%')).Some? ==> (r == Returned(true) <==> ParseFloat(RemoveChar(cell.s, '%')).value >= 200.0))
    ensures cell.JStr? && cell.s != "" && cell.s != "获取失败" && !Contains(cell.s, "%") ==> r == Returned(false)
    ensures cell.JNum? || cell.JBool? || cell.JArr? ==> r.Raised?
  {
    PercentRule(cell, v => v >= 200.0)
  }

  /** `filter_by_top10_holdings`: top-10 weights below 40% are kept. */
  function Top10Keep(cell: JValue): (r: Outcome<bool>)
    ensures cell == JNull || cell == JStr("") || cell == JStr("获取失败") ==> r == Returned(true)
    ensures cell.JStr? && cell.s != "" && cell.s != "获取失败" && Contains(cell.s, "%") ==>
      (ParseFloat(RemoveChar(cell.s, '%')).None? ==> r.Raised?) &&
      (ParseFloat(RemoveChar(cell.s, '%')).Some? ==> (r == Returned(true) <==> ParseFloat(RemoveChar(cell.s, '%')).value < 40.0))
    ensures cell.JStr? && cell.s != "" && cell.s != "获取失败" && !Contains(cell.s, "%") ==> r == Returned(false)
    ensures cell.JNum? || cell.JBool? || cell.JArr? ==> r.Raised?
  {
    PercentRule(cell, v => v < 40.0)
  }

  /** Text followed by one '%' holds "%", and removing '%' gives the text back. */
  lemma PercentText(t: string)
    requires '%' !in t
    ensures Contains(t + "%", "%") && RemoveChar(t + "%", '%') == t
    ensures t + "%" != "" && t + "%" != "获取失败"
  {
    var s := t + "%";
    assert s[|t|..|t| + 1] == "%";
    ContainsAt(s, "%", |t|);
    RemoveCharAppend(t, "%", '%');
    RemoveCharAbsent(t, '%');
    assert RemoveChar("%", '%') == [];
    assert s[|s| - 1] == '%';
  }

  /** A cell "<text>%" is judged by `float(text)`. */
  lemma PercentRuleOf(t: string, accept: real -> bool)
    requires '%' !in t
    ensures ParseFloat(t).None? ==> PercentRule(JStr(t + "%"), accept).Raised?
    ensures ParseFloat(t).Some? ==> PercentRule(JStr(t + "%"), accept) == Returned(accept(ParseFloat(t).value))
  {
    PercentText(t);
  }

  /** A turnover text such as "250.50%" is kept exactly when its number is at least 200. */
  lemma TurnoverPercent(digits: string, v: real)
    requires '%' !in digits && ParseFloat(digits) == Some(v)
    ensures TurnoverKeep(JStr(digits + "%")) == Returned(v >= 200.0)
  {
    PercentRuleOf(digits, v => v >= 200.0);
  }

  /** The fallback's "%.2f%%" cells are judged by their two-decimal value. */
  lemma Top10Formatted(w: real)
    ensures Top10Keep(JStr(Fmt2(w) + "%")) == Returned(Round2(w) < 40.0)
  {
    Fmt2RoundTrip(w);
    var f := Fmt2(w);
    Unsigned2Chars(Magnitude(Hundredths(w)));
    assert '%' !in f;
    PercentRuleOf(f, v => v < 40.0);
  }

  lemma Unsigned2Chars(m: nat)
    ensures Unsigned2(m) != "" && forall i :: 0 <= i < |Unsigned2(m)| ==> IsNumChar(Unsigned2(m)[i])
  {
  }

  /** `re.search(r'[\d.]+', s).group()`: the first maximal run of digits and '.', if any. */
  function FirstNumRun(s: string): (r: Option<string>)
    ensures r.Some? ==> |r.value| > 0 && Contains(s, r.value) && (forall i :: 0 <= i < |r.value| ==> IsNumChar(r.value[i]))
    ensures r.None? <==> forall i :: 0 <= i < |s| ==> !IsNumChar(s[i])
    decreases |s|
  {
    if s == [] then None
    else if IsNumChar(s[0]) then
      var n := NumRun(s);
      assert StartsWith(s, s[..n]);
      Some(s[..n])
    else
      var r := FirstNumRun(s[1..]);
      assert forall i :: 1 <= i < |s| ==> s[i] == s[1..][i - 1];
      r
  }

  /**
   * `filter_by_scale`: blank or "获取失败" is kept; with '亿' the rest must
   * read as 0.2 to 40; with '万' it must reach 2000 (no upper bound); with
   * neither the first number must lie in 0.2 to 40. A parse failure keeps
   * the row.
   */
  function ScaleKeep(s: string): (r: bool)
    ensures s == "" || s == "获取失败" ==> r
    ensures s != "获取失败" && '亿' in s && ParseFloat(RemoveChar(s, '亿')).Some? ==>
      (r <==> 0.2 <= ParseFloat(RemoveChar(s, '亿')).value <= 40.0)
    ensures '亿' !in s && '万' in s && ParseFloat(RemoveChar(s, '万')).Some? ==>
      (r <==> ParseFloat(RemoveChar(s, '万')).value >= 2000.0)
    ensures '亿' in s && ParseFloat(RemoveChar(s, '亿')).None? ==> r
    ensures '亿' !in s && '万' in s && ParseFloat(RemoveChar(s, '万')).None? ==> r
    ensures '亿' !in s && '万' !in s && FirstNumRun(s).Some? && ParseFloat(FirstNumRun(s).value).Some? ==>
      (r <==> 0.2 <= ParseFloat(FirstNumRun(s).value).value <= 40.0)
    ensures '亿' !in s && '万' !in s && (FirstNumRun(s).None? || ParseFloat(FirstNumRun(s).value).None?) ==> r
  {
    if s == "" || s == "获取失败" then true
    else if '亿' in s then
      match ParseFloat(RemoveChar(s, '亿'))
      case None => true
      case Some(v) => 0.2 <= v <= 40.0
    else if '万' in s then
      match ParseFloat(RemoveChar(s, '万'))
      case None => true
      case Some(v) => v >= 2000.0
    else
      match FirstNumRun(s)
      case None => true
      case Some(g) =>
        match ParseFloat(g)
        case None => true
        case Some(v) => 0.2 <= v <= 40.0
  }

  /**
   * Every cell the accumulation writes is kept: removing '亿' from
   * "N.NN亿元" leaves "N.NN元", which `float()` rejects.
   */
  lemma ScaleKeepsRendered(x: real)
    requires x >= 0.0
    ensures ScaleKeep(Render(Some(x)))
  {
    var f := Fmt2(x);
    Fmt2Chars(x);
    var s := f + "亿元";
    assert s[|f|] == '亿';
    assert '亿' !in f;
    RemoveCharAppend(f, "亿元", '亿');
    RemoveCharAbsent(f, '亿');
    assert RemoveChar("亿元", '亿') == "元";
    var t := RemoveChar(s, '亿');
    assert t == f + "元";
    ParseFloatRejectsSuffix(t);
  }

  /** `filter_by_excess_return_ratio`. */
  predicate ExcessKeep(row: Screened)
    ensures row.e1y <= 0.0 ==> ExcessKeep(row)
    ensures row.e1y > 0.0 && ExcessKeep(row) ==> row.e6m > 0.0 && row.e3m > 0.0 && row.e1m > 0.0
  {
    row.e1y > 0.0 ==> row.e6m >= row.e1y * 0.5 && row.e3m >= row.e1y * 0.25 && row.e1m >= row.e1y * 0.08
  }

  /** A mask computed with `Series.apply`: an exception in any cell escapes. */
  function ApplyMask(rows: seq<Screened>, keep: Screened -> Outcome<bool>): (r: Outcome<seq<Screened>>)
    ensures r.Raised? <==> exists k :: 0 <= k < |rows| && keep(rows[k]).Raised?
    ensures r.Returned? ==> forall x :: x in r.value <==> x in rows && keep(x) == Returned(true)
    ensures r.Returned? ==> |r.value| <= |rows|
    decreases |rows|
  {
    if rows == [] then Returned([])
    else
      var rest := ApplyMask(rows[1..], keep);
      assert forall k :: 1 <= k < |rows| ==> rows[k] == rows[1..][k - 1];
      match keep(rows[0])
      case Raised => Raised
      case Returned(b) =>
        match rest
        case Raised => Raised
        case Returned(t) => Returned((if b then [rows[0]] else []) + t)
  }

  function TurnoverMask(): Screened -> Outcome<bool> { (r: Screened) => TurnoverKeep(r.turnover) }
  function Top10Mask(): Screened -> Outcome<bool> { (r: Screened) => Top10Keep(r.top10) }
  function ScaleMask(): Screened -> bool { (r: Screened) => ScaleKeep(r.scale) }
  function ExcessMask(): Screened -> bool { (r: Screened) => ExcessKeep(r) }

  /**
   * The four row filters after the enrichment loop; an exception in a mask
   * escapes. When the turnover mask keeps no row, the `apply` of the next
   * mask runs on an empty column and yields an empty object series, which
   * pandas reads as a list of column labels: the frame loses every column
   * and the next `df[...]` lookup raises KeyError. A later mask that keeps
   * no row only leads to an empty frame being written.
   */
  function Screen(rows: seq<Screened>): (r: Run)
    ensures !r.Aborted?
    ensures r.Report? ==> forall x :: x in r.rows ==>
      x in rows && TurnoverKeep(x.turnover) == Returned(true) && ScaleKeep(x.scale) &&
      Top10Keep(x.top10) == Returned(true) && ExcessKeep(x)
    ensures r.Report? ==> exists k :: 0 <= k < |rows| && TurnoverKeep(rows[k].turnover) == Returned(true)
  {
    match ApplyMask(rows, TurnoverMask())
    case Raised => Crashed
    case Returned(t) =>
      if t == [] then Crashed
      else
      assert t[0] in t;
      match ApplyMask(Filter(t, ScaleMask()), Top10Mask())
      case Raised => Crashed
      case Returned(u) => Report(Filter(u, ExcessMask()))
  }

  /** A row that the turnover and the scale rules keep. */
  predicate TurnoverScaleKept(x: Screened) {
    TurnoverKeep(x.turnover) == Returned(true) && ScaleKeep(x.scale)
  }

  /** A row that every one of the four screening rules keeps. */
  predicate PassesScreen(x: Screened) {
    TurnoverScaleKept(x) && Top10Keep(x.top10) == Returned(true) && ExcessKeep(x)
  }

  /** A mask that returns is the row filter of the rows it maps to `True`, in order. */
  lemma {:induction false} ApplyMaskFilter(rows: seq<Screened>, keep: Screened -> Outcome<bool>)
    requires ApplyMask(rows, keep).Returned?
    ensures ApplyMask(rows, keep).value == Filter(rows, x => keep(x) == Returned(true))
    decreases |rows|
  {
    if rows != [] {
      assert ApplyMask(rows[1..], keep).Returned?;
      ApplyMaskFilter(rows[1..], keep);
    }
  }

  /** After a turnover mask that returns, the scale filter leaves the rows both rules keep. */
  lemma TurnoverScaleStage(rows: seq<Screened>)
    requires ApplyMask(rows, TurnoverMask()).Returned?
    ensures Filter(ApplyMask(rows, TurnoverMask()).value, ScaleMask()) == Filter(rows, TurnoverScaleKept)
  {
    ApplyMaskFilter(rows, TurnoverMask());
    FilterTwice(rows, x => TurnoverMask()(x) == Returned(true), ScaleMask(), TurnoverScaleKept);
  }

  /** A reported screening holds exactly the rows passing all four rules, in their original order. */
  lemma ScreenReport(rows: seq<Screened>)
    ensures Screen(rows).Report? ==> Screen(rows).rows == Filter(rows, PassesScreen)
  {
    if Screen(rows).Report? {
      TurnoverScaleStage(rows);
      var v := Filter(rows, TurnoverScaleKept);
      ApplyMaskFilter(v, Top10Mask());
      var tst := (x: Screened) => TurnoverScaleKept(x) && Top10Keep(x.top10) == Returned(true);
      FilterTwice(rows, TurnoverScaleKept, x => Top10Mask()(x) == Returned(true), tst);
      FilterTwice(rows, tst, ExcessMask(), PassesScreen);
    }
  }

  /** The top-10 mask over the rows the first two rules kept raises exactly when one of their cells does. */
  lemma Top10StageRaises(rows: seq<Screened>, v: seq<Screened>)
    requires v == Filter(rows, TurnoverScaleKept)
    ensures ApplyMask(v, Top10Mask()).Raised? <==>
      exists k :: 0 <= k < |rows| && TurnoverScaleKept(rows[k]) && Top10Keep(rows[k].top10).Raised?
  {
    if ApplyMask(v, Top10Mask()).Raised? {
      var k :| 0 <= k < |v| && Top10Mask()(v[k]).Raised?;
      assert v[k] in v;
      var j :| 0 <= j < |rows| && rows[j] == v[k];
    } else {
      forall k | 0 <= k < |rows| && TurnoverScaleKept(rows[k])
        ensures !Top10Keep(rows[k].top10).Raised?
      {
        assert rows[k] in v;
        var j :| 0 <= j < |v| && v[j] == rows[k];
      }
    }
  }

  /**
   * The screening crashes exactly when a turnover cell raises, when the
   * turnover rule keeps no row (the KeyError of the emptied frame), or when
   * a top-10 cell raises on a row that the turnover and scale rules kept.
   */
  lemma ScreenCrash(rows: seq<Screened>)
    ensures Screen(rows).Crashed? <==>
      (exists k :: 0 <= k < |rows| && TurnoverKeep(rows[k].turnover).Raised?) ||
      (forall k :: 0 <= k < |rows| ==> TurnoverKeep(rows[k].turnover) == Returned(false)) ||
      (exists k :: 0 <= k < |rows| && TurnoverScaleKept(rows[k]) && Top10Keep(rows[k].top10).Raised?)
  {
    if ApplyMask(rows, TurnoverMask()).Returned? {
      TurnoverEmpty(rows);
      TurnoverScaleStage(rows);
      Top10StageRaises(rows, Filter(rows, TurnoverScaleKept));
    }
  }

  /** A turnover mask that returns keeps no row exactly when every turnover cell is rejected. */
  lemma TurnoverEmpty(rows: seq<Screened>)
    requires ApplyMask(rows, TurnoverMask()).Returned?
    ensures ApplyMask(rows, TurnoverMask()).value == [] <==>
      forall k :: 0 <= k < |rows| ==> TurnoverKeep(rows[k].turnover) == Returned(false)
  {
    var t := ApplyMask(rows, TurnoverMask()).value;
    if t == [] {
      forall k | 0 <= k < |rows| ensures TurnoverKeep(rows[k].turnover) == Returned(false) {
        assert TurnoverMask()(rows[k]).Returned?;
        assert rows[k] !in t;
      }
    } else {
      assert t[0] in t;
    }
  }

  /** The frame the enrichment loop starts from. */
  function Screened0(ranking: seq<RankRow>): (r: seq<Screened>)
    ensures forall k :: 0 <= k < |r| ==> (r[k].scale == "" && r[k].fund in ranking && r[k].fund.r6m.Some? &&
      ClearOf(r[k].fund, ExcludeKeywords) && BeatsBenchmarks(r[k].fund) &&
      r[k].e1y + Bench1Y == r[k].fund.r1y.value && r[k].e6m + Bench6M == r[k].fund.r6m.value &&
      r[k].e3m + Bench3M == r[k].fund.r3m.value && r[k].e1m + Bench1M == r[k].fund.r1m.value)
  {
    var f2 := Filter(DropMissing6M(ranking), ClearMask(ExcludeKeywords));
    BenchmarkConjunction(f2);
    var f3 := BenchmarkStage(f2);
    StagedRows(ranking, ExcludeKeywords, f3);
    AddAllColumns(f3)
  }

  /** A row left after the first three stages is a ranking row that passed every one of them. */
  lemma StagedRows(ranking: seq<RankRow>, kws: seq<string>, f3: seq<RankRow>)
    requires f3 == Filter(Filter(DropMissing6M(ranking), ClearMask(kws)), row => BeatsBenchmarks(row))
    ensures forall k :: 0 <= k < |f3| ==>
      f3[k] in ranking && f3[k].r6m.Some? && ClearOf(f3[k], kws) && BeatsBenchmarks(f3[k])
  {
    forall k | 0 <= k < |f3|
      ensures f3[k] in ranking && f3[k].r6m.Some? && ClearOf(f3[k], kws) && BeatsBenchmarks(f3[k])
    {
      assert f3[k] in f3;
    }
  }

  /**
   * `analyze_funds`: the frame it writes, or how it ended early. The scalar
   * assignment `.loc[:, "成立时间"] = ""` raises ValueError on a frame with
   * no rows, so a ranking where no row has a 6-month return, a name free
   * of the keywords and all four benchmarks beaten crashes before the loop.
   */
  function Analysis(ranking: seq<RankRow>, p: Providers): (r: Run)
    ensures (forall x :: x in ranking ==> !(x.r6m.Some? && ClearOf(x, ExcludeKeywords) && BeatsBenchmarks(x))) ==>
      r == Crashed
    ensures r.Aborted? <==> EnrichAll(Screened0(ranking), p).Aborted?
    ensures r.Report? ==> Screened0(ranking) != [] && EnrichAll(Screened0(ranking), p).Report?
    ensures r.Report? ==> r.rows == Filter(EnrichAll(Screened0(ranking), p).rows, PassesScreen)
  {
    if Screened0(ranking) == [] then Crashed
    else
    match EnrichAll(Screened0(ranking), p)
    case Aborted => Aborted
    case Crashed => Crashed
    case Report(rows) =>
      ScreenReport(rows);
      Screen(rows)
  }

  /** The whole pipeline, stage by stage. */
  method AnalyzeFunds(ranking: seq<RankRow>, p: Providers) returns (r: Run)
    ensures r == Analysis(ranking, p)
  {
    var frame := DropMissing6M(ranking);
    frame := KeywordStage(frame);
    var f2 := frame;
    frame := Filter(frame, Beats1Y());
    frame := Filter(frame, Beats6M());
    frame := Filter(frame, Beats3M());
    frame := Filter(frame, Beats1M());
    BenchmarkConjunction(f2);
    assert forall k :: 0 <= k < |frame| ==> frame[k] in frame;
    var rows := AddAllColumns(frame);
    if rows == [] {
      return Crashed;
    }
    var e := Enrich(rows, p);
    if !e.Report? {
      return e;
    }
    r := Screen(e.rows);
  }

  /** The rows the enrichment loop hands on keep their fund and returns, and hold a scale cell the accumulation can write. */
  lemma EnrichedRows(frame: seq<Screened>, p: Providers)
    requires forall k :: 0 <= k < |frame| ==> frame[k].scale == ""
    requires EnrichAll(frame, p).Report?
    ensures forall x :: x in EnrichAll(frame, p).rows ==> exists k :: (0 <= k < |frame| &&
      x.fund == frame[k].fund && x.e1y == frame[k].e1y && x.e6m == frame[k].e6m &&
      x.e3m == frame[k].e3m && x.e1m == frame[k].e1m && ScaleShaped(x.scale))
  {
    var rows := EnrichAll(frame, p).rows;
    forall x | x in rows
      ensures exists k :: (0 <= k < |frame| &&
        x.fund == frame[k].fund && x.e1y == frame[k].e1y && x.e6m == frame[k].e6m &&
        x.e3m == frame[k].e3m && x.e1m == frame[k].e1m && ScaleShaped(x.scale))
    {
      var k :| 0 <= k < |rows| && rows[k] == x;
      EnrichRowShape(frame[k], p);
    }
  }

  /** The scale filter keeps every row it is given, since every cell it sees is "" or "%.2f亿元". */
  lemma ScaleFilterKeepsAll(rows: seq<Screened>)
    requires forall x :: x in rows ==> ScaleShaped(x.scale)
    ensures Filter(rows, ScaleMask()) == rows
  {
    forall x | x in rows
      ensures ScaleMask()(x)
    {
      if x.scale != "" {
        var v :| v >= 0.0 && x.scale == Render(Some(v));
        ScaleKeepsRendered(v);
      }
    }
    FilterKeepsAll(rows, ScaleMask());
  }

  /**
   * Every row of the written frame comes from the ranking, has a 6-month
   * return and a name free of the keywords, beats all four benchmarks with
   * the excess columns equal to return minus benchmark, and passes the
   * turnover, scale, top-10 and excess-ratio rules.
   */
  lemma ReportedRows(ranking: seq<RankRow>, p: Providers)
    requires Analysis(ranking, p).Report?
    ensures forall x :: x in Analysis(ranking, p).rows ==>
      x.fund in ranking && x.fund.r6m.Some? && ClearOf(x.fund, ExcludeKeywords) && BeatsBenchmarks(x.fund) &&
      x.e1y + Bench1Y == x.fund.r1y.value && x.e6m + Bench6M == x.fund.r6m.value &&
      x.e3m + Bench3M == x.fund.r3m.value && x.e1m + Bench1M == x.fund.r1m.value &&
      x.e1y >= 0.0 && x.e6m >= 0.0 && x.e3m >= 0.0 && x.e1m >= 0.0 &&
      TurnoverKeep(x.turnover) == Returned(true) && ScaleKeep(x.scale) &&
      Top10Keep(x.top10) == Returned(true) && ExcessKeep(x)
  {
    var frame := Screened0(ranking);
    assert frame != [] && EnrichAll(frame, p).Report?;
    var rows := EnrichAll(frame, p).rows;
    EnrichedRows(frame, p);
    assert Analysis(ranking, p) == Screen(rows);
    forall x | x in Screen(rows).rows
      ensures x.fund in ranking && x.fund.r6m.Some? && ClearOf(x.fund, ExcludeKeywords) && BeatsBenchmarks(x.fund) &&
        x.e1y + Bench1Y == x.fund.r1y.value && x.e6m + Bench6M == x.fund.r6m.value &&
        x.e3m + Bench3M == x.fund.r3m.value && x.e1m + Bench1M == x.fund.r1m.value
    {
      assert x in rows;
      var k :| 0 <= k < |frame| && x.fund == frame[k].fund && x.e1y == frame[k].e1y && x.e6m == frame[k].e6m &&
        x.e3m == frame[k].e3m && x.e1m == frame[k].e1m && ScaleShaped(x.scale);
    }
  }

  /** In the pipeline the scale filter removes nothing. */
  lemma ScaleStageRemovesNothing(ranking: seq<RankRow>, p: Providers)
    requires EnrichAll(Screened0(ranking), p).Report?
    requires ApplyMask(EnrichAll(Screened0(ranking), p).rows, TurnoverMask()).Returned?
    ensures var t := ApplyMask(EnrichAll(Screened0(ranking), p).rows, TurnoverMask()).value;
      Filter(t, ScaleMask()) == t
  {
    var frame := Screened0(ranking);
    var rows := EnrichAll(frame, p).rows;
    EnrichedRows(frame, p);
    var t := ApplyMask(rows, TurnoverMask()).value;
    forall x | x in t ensures ScaleShaped(x.scale) {
      var k :| 0 <= k < |frame| && x.fund == frame[k].fund && ScaleShaped(x.scale);
    }
    ScaleFilterKeepsAll(t);
  }

  /** A missing name for any row reached by the loop ends the whole run with nothing written. */
  lemma MissingNameAborts(ranking: seq<RankRow>, p: Providers, i: nat)
    requires i < |Screened0(ranking)|
    requires EnrichedUpTo(Screened0(ranking), p, i)
    requires p.nameOf(Screened0(ranking)[i].fund.code).None? || p.nameOf(Screened0(ranking)[i].fund.code).value == ""
    ensures Analysis(ranking, p) == Aborted
  {
    EnrichAllAborted(Screened0(ranking), p);
  }
}
