/**
 * Share classes and per-date aggregation across sibling funds
 * (`fund_data_processor.py`): the A/C class names derived from a fund name,
 * the base name used for the sibling search, the aggregation of net assets
 * and of institutional holdings over the siblings' crawled records, and the
 * cache-freshness rule of `process_fund_data_with_cache`.
 */
module FundDataProcessor {
  import opened Common
  import opened Decimal
  import opened Sorting
  import FundScaleCrawler
  import opened Json
  import Dates

  /** A fund name without one trailing share-class letter 'A' or 'C'. */
  function BaseName(name: string): (b: string)
    ensures (EndsWith(name, "A") || EndsWith(name, "C")) ==> |name| > 0 && b == name[..|name| - 1]
    ensures !(EndsWith(name, "A") || EndsWith(name, "C")) ==> b == name
  {
    if EndsWith(name, "A") || EndsWith(name, "C") then name[..|name| - 1] else name
  }

  /** `find_a_c_classes`: the class-A and class-C names belonging to a fund name. */
  function FindAC(name: string): (r: (string, string)) {
    var base := BaseName(name);
    var a := if !EndsWith(base, "A") then base + "A" else base;
    var c := if !EndsWith(base, "C") then base + "C" else base;
    if EndsWith(name, "A") then (name, c)
    else if EndsWith(name, "C") then (a, name)
    else (a, c)
  }

  lemma EndsWithAppend(s: string, c: char)
    ensures EndsWith(s + [c], [c])
  {
    assert (s + [c])[|s + [c]| - 1..] == [c];
  }

  /** The first name is always a class-A name and the second a class-C name. */
  lemma FindACSuffixes(name: string)
    ensures EndsWith(FindAC(name).0, "A") && EndsWith(FindAC(name).1, "C")
  {
    var base := BaseName(name);
    EndsWithAppend(base, 'A');
    EndsWithAppend(base, 'C');
  }

  /** A name that already carries a class letter is returned in its own slot. */
  lemma FindACKeepsOwnClass(name: string)
    ensures EndsWith(name, "A") ==> FindAC(name).0 == name
    ensures EndsWith(name, "C") ==> FindAC(name).1 == name
  {
    assert EndsWith(name, "A") ==> !EndsWith(name, "C");
  }

  /** A name without a class letter gets both letters appended. */
  lemma FindACAppends(name: string)
    requires !EndsWith(name, "A") && !EndsWith(name, "C")
    ensures FindAC(name) == (name + "A", name + "C")
  {
  }

  /** The other class of a class-A fund is the same base name with 'C' (when the base does not end in 'C'). */
  lemma FindACSibling(base: string)
    requires !EndsWith(base, "C")
    ensures FindAC(base + "A") == (base + "A", base + "C")
    ensures FindAC(base + "C").0 == (if EndsWith(base, "A") then base else base + "A")
  {
    EndsWithAppend(base, 'A');
    EndsWithAppend(base, 'C');
    assert (base + "A")[..|base + "A"| - 1] == base;
    assert (base + "C")[..|base + "C"| - 1] == base;
    assert !EndsWith(base + "A", "C");
  }

  /** Stripping drops at most one letter, and only a class letter. */
  lemma BaseNameStrips(name: string)
    ensures |BaseName(name)| == |name| || (|BaseName(name)| + 1 == |name| && (name[|name| - 1] == 'A' || name[|name| - 1] == 'C'))
    ensures BaseName(name) == name[..|BaseName(name)|]
  {
  }

  // ---------------------------------------------------------------------
  // Grouping by date (`date_scale_map`, `date_cyrjg_map`)
  // ---------------------------------------------------------------------

  /** A date-keyed dictionary, with the order in which its keys were first inserted. */
  datatype Groups<R> = Groups(order: seq<string>, records: map<string, R>)

  /** `list(d.values())`. */
  function ValuesOf<R>(order: seq<string>, records: map<string, R>): (r: seq<R>)
    ensures |r| <= |order|
    ensures (forall k :: k in order ==> k in records) ==>
      |r| == |order| && forall i :: 0 <= i < |order| ==> r[i] == records[order[i]]
  {
    if order == [] then []
    else (if order[0] in records then [records[order[0]]] else []) + ValuesOf(order[1..], records)
  }

  /** Keys listed once, in the order list exactly when in the dictionary, and each record dated by its key. */
  predicate Grouped<R>(g: Groups<R>, date: R -> string) {
    (forall i, j :: 0 <= i < j < |g.order| ==> g.order[i] != g.order[j]) &&
    (forall k :: k in g.records ==> k in g.order) &&
    (forall i :: 0 <= i < |g.order| ==> g.order[i] in g.records) &&
    (forall k :: k in g.records ==> date(g.records[k]) == k)
  }

  /** The values of a well-formed dictionary are its records, one per date. */
  lemma ValuesOfGrouped<R>(g: Groups<R>, date: R -> string)
    requires Grouped(g, date)
    ensures KeysDistinct(ValuesOf(g.order, g.records), date)
    ensures forall x :: x in ValuesOf(g.order, g.records) <==> exists k :: k in g.records && g.records[k] == x
  {
    var v := ValuesOf(g.order, g.records);
    assert forall k :: k in g.order ==> k in g.records;
    assert |v| == |g.order| && forall i :: 0 <= i < |v| ==> v[i] == g.records[g.order[i]];
    forall i, j | 0 <= i < j < |v|
      ensures date(v[i]) != date(v[j])
    {
      assert date(v[i]) == g.order[i] && date(v[j]) == g.order[j];
    }
    forall x | x in v
      ensures exists k :: k in g.records && g.records[k] == x
    {
      var i :| 0 <= i < |v| && v[i] == x;
      assert g.order[i] in g.records;
    }
    forall x | exists k :: k in g.records && g.records[k] == x
      ensures x in v
    {
      var k :| k in g.records && g.records[k] == x;
      var i :| 0 <= i < |g.order| && g.order[i] == k;
      assert v[i] == x;
    }
  }

  /** `get_fund_name_by_code(code) or '未知'`. */
  function NameOr(nameOf: string -> Option<string>, code: string): (n: string)
    ensures n != ""
    ensures nameOf(code).Some? && nameOf(code).value != "" ==> n == nameOf(code).value
    ensures !(nameOf(code).Some? && nameOf(code).value != "") ==> n == "未知"
  {
    match nameOf(code)
    case Some(v) => if v != "" then v else "未知"
    case None => "未知"
  }

  /** `if status != 'success' or not data: continue`. */
  predicate Contributes<T>(r: FundScaleCrawler.CrawlResult<T>) { r.Success? && r.data != [] }

  // ---------------------------------------------------------------------
  // aggregate_fund_scale_data
  // ---------------------------------------------------------------------

  /** An element of `scale_data_list`: the fund code and the crawl of its net assets. */
  datatype ScaleCrawl = ScaleCrawl(code: string, result: FundScaleCrawler.CrawlResult<FundScaleCrawler.ScaleEntry>)

  /** An element of `基金明细`. */
  datatype ScaleDetail = ScaleDetail(code: string, name: string, asset: real)

  /** `{'日期', '期末净资产', '基金明细'}`. */
  datatype ScaleRecord = ScaleRecord(date: string, total: real, details: seq<ScaleDetail>)

  function RecordDate(r: ScaleRecord): string { r.date }

  /** `round(float(item['期末净资产'] or 0), 2)`: a whole number of hundredths. */
  function NetAsset(e: FundScaleCrawler.ScaleEntry): (v: real)
    ensures Round2(v) == v
    ensures e.netAsset.None? ==> v == 0.0
    ensures e.netAsset.Some? ==> v == Round2(e.netAsset.value)
  {
    var x := if e.netAsset.None? then 0.0 else e.netAsset.value;
    Round2Idempotent(x);
    Round2(x)
  }

  /** One pass of the inner loop: the record of the item's date is created if new, then its total and details grow. */
  function AddScaleItem(g: Groups<ScaleRecord>, code: string, name: string, e: FundScaleCrawler.ScaleEntry): Groups<ScaleRecord> {
    var d := e.date;
    var net := NetAsset(e);
    var prev := if d in g.records then g.records[d] else ScaleRecord(d, 0.0, []);
    Groups(if d in g.records then g.order else g.order + [d],
           g.records[d := ScaleRecord(d, Round2(prev.total + net), prev.details + [ScaleDetail(code, name, net)])])
  }

  function AddScaleItems(g: Groups<ScaleRecord>, code: string, name: string, items: seq<FundScaleCrawler.ScaleEntry>): Groups<ScaleRecord>
    decreases |items|
  {
    if items == [] then g else AddScaleItems(AddScaleItem(g, code, name, items[0]), code, name, items[1..])
  }

  function AddScaleCrawls(g: Groups<ScaleRecord>, crawls: seq<ScaleCrawl>, nameOf: string -> Option<string>): Groups<ScaleRecord>
    decreases |crawls|
  {
    if crawls == [] then g else AddScaleCrawls(AddCrawl(g, crawls[0], nameOf), crawls[1..], nameOf)
  }

  /** One crawl of the outer loop: a contributing crawl adds its items, any other is skipped. */
  function AddCrawl(g: Groups<ScaleRecord>, c: ScaleCrawl, nameOf: string -> Option<string>): Groups<ScaleRecord> {
    if Contributes(c.result) then AddScaleItems(g, c.code, NameOr(nameOf, c.code), c.result.data) else g
  }

  /** What `aggregate_fund_scale_data` returns. */
  function AggregateScale(crawls: seq<ScaleCrawl>, nameOf: string -> Option<string>): seq<ScaleRecord> {
    if crawls == [] then []
    else
      var g := AddScaleCrawls(Groups([], map[]), crawls, nameOf);
      Newest(ValuesOf(g.order, g.records), RecordDate, 5)
  }

  /** The inner loop of `aggregate_fund_scale_data` over one fund's records. */
  method AddScaleItemsInPlace(order0: seq<string>, records0: map<string, ScaleRecord>, code: string, name: string, data: seq<FundScaleCrawler.ScaleEntry>)
    returns (order: seq<string>, records: map<string, ScaleRecord>)
    ensures Groups(order, records) == AddScaleItems(Groups(order0, records0), code, name, data)
  {
    order, records := order0, records0;
    for k := 0 to |data|
      invariant AddScaleItems(Groups(order, records), code, name, data[k..]) == AddScaleItems(Groups(order0, records0), code, name, data)
    {
      var e := data[k];
      ghost var before := Groups(order, records);
      assert data[k..][1..] == data[k + 1..];
      var net := NetAsset(e);
      var rec := if e.date in records then records[e.date] else ScaleRecord(e.date, 0.0, []);
      if e.date !in records {
        order := order + [e.date];
      }
      records := records[e.date := ScaleRecord(e.date, Round2(rec.total + net), rec.details + [ScaleDetail(code, name, net)])];
      assert Groups(order, records) == AddScaleItem(before, code, name, e);
    }
    assert data[|data|..] == [];
  }

  /** `aggregate_fund_scale_data`, with the dictionary and its detail lists updated in nested loops. */
  method AggregateScaleData(crawls: seq<ScaleCrawl>, nameOf: string -> Option<string>) returns (result: seq<ScaleRecord>)
    ensures result == AggregateScale(crawls, nameOf)
  {
    if crawls == [] {
      return [];
    }
    var order: seq<string> := [];
    var records: map<string, ScaleRecord> := map[];
    for i := 0 to |crawls|
      invariant AddScaleCrawls(Groups(order, records), crawls[i..], nameOf) == AddScaleCrawls(Groups([], map[]), crawls, nameOf)
    {
      var c := crawls[i];
      ghost var g0 := Groups(order, records);
      assert crawls[i..][1..] == crawls[i + 1..];
      assert AddScaleCrawls(g0, crawls[i..], nameOf) == AddScaleCrawls(AddCrawl(g0, c, nameOf), crawls[i + 1..], nameOf);
      if !Contributes(c.result) {
        assert AddCrawl(g0, c, nameOf) == g0;
        continue;
      }
      var data := c.result.data;
      var name := NameOr(nameOf, c.code);
      assert AddCrawl(g0, c, nameOf) == AddScaleItems(g0, c.code, name, data);
      order, records := AddScaleItemsInPlace(order, records, c.code, name, data);
    }
    result := Newest(ValuesOf(order, records), RecordDate, 5);
  }

  /** The details one fund's records contribute to date `d`, in their order. */
  function ItemDetails(code: string, name: string, items: seq<FundScaleCrawler.ScaleEntry>, d: string): seq<ScaleDetail> {
    if items == [] then []
    else (if items[0].date == d then [ScaleDetail(code, name, NetAsset(items[0]))] else []) + ItemDetails(code, name, items[1..], d)
  }

  /** The details date `d` receives from all contributing crawls, in list order: the reference the aggregation is checked against. */
  function CrawlDetails(crawls: seq<ScaleCrawl>, nameOf: string -> Option<string>, d: string): seq<ScaleDetail> {
    if crawls == [] then [] else CrawlOwn(crawls[0], nameOf, d) + CrawlDetails(crawls[1..], nameOf, d)
  }

  /** The details date `d` receives from one crawl. */
  function CrawlOwn(c: ScaleCrawl, nameOf: string -> Option<string>, d: string): seq<ScaleDetail> {
    if Contributes(c.result) then ItemDetails(c.code, NameOr(nameOf, c.code), c.result.data, d) else []
  }

  /** The sum of the details' net assets, added up left to right. */
  function SumAssets(ds: seq<ScaleDetail>): real {
    if ds == [] then 0.0 else SumAssets(ds[..|ds| - 1]) + ds[|ds| - 1].asset
  }

  function DetailsAt(g: Groups<ScaleRecord>, d: string): seq<ScaleDetail> {
    if d in g.records then g.records[d].details else []
  }

  /** The dictionary is well formed, every record has a detail, and its total is exactly the sum of its details. */
  predicate Consistent(g: Groups<ScaleRecord>) {
    Grouped(g, RecordDate) &&
    forall d :: d in g.records ==>
      g.records[d].details != [] && g.records[d].total == SumAssets(g.records[d].details) && Round2(g.records[d].total) == g.records[d].total
  }

  /** Storing a record under its own date keeps a dictionary well formed. */
  lemma GroupedPut<R>(g: Groups<R>, d: string, x: R, date: R -> string)
    requires Grouped(g, date) && date(x) == d
    ensures Grouped(Groups(if d in g.records then g.order else g.order + [d], g.records[d := x]), date)
  {
    var order := if d in g.records then g.order else g.order + [d];
    if d !in g.records {
      forall i, j | 0 <= i < j < |order| ensures order[i] != order[j] {
        if j == |g.order| {
          assert g.order[i] in g.records;
        }
      }
    }
  }

  lemma AddScaleItemGrouped(g: Groups<ScaleRecord>, code: string, name: string, e: FundScaleCrawler.ScaleEntry)
    requires Grouped(g, RecordDate)
    ensures Grouped(AddScaleItem(g, code, name, e), RecordDate)
  {
    var d := e.date;
    var prev := if d in g.records then g.records[d] else ScaleRecord(d, 0.0, []);
    GroupedPut(g, d, ScaleRecord(d, Round2(prev.total + NetAsset(e)), prev.details + [ScaleDetail(code, name, NetAsset(e))]), RecordDate);
  }

  lemma AddScaleItemTotals(g: Groups<ScaleRecord>, code: string, name: string, e: FundScaleCrawler.ScaleEntry)
    requires Consistent(g)
    ensures Consistent(AddScaleItem(g, code, name, e))
  {
    AddScaleItemGrouped(g, code, name, e);
    var d := e.date;
    var net := NetAsset(e);
    var prev := if d in g.records then g.records[d] else ScaleRecord(d, 0.0, []);
    var g1 := AddScaleItem(g, code, name, e);
    forall k | k in g1.records
      ensures g1.records[k].details != [] && g1.records[k].total == SumAssets(g1.records[k].details) && Round2(g1.records[k].total) == g1.records[k].total
    {
      if k == d {
        NewTotal(prev, ScaleDetail(code, name, net));
      } else {
        assert g1.records[k] == g.records[k];
      }
    }
  }

  /** Adding a detail to a consistent record keeps its total exact. */
  lemma NewTotal(prev: ScaleRecord, x: ScaleDetail)
    requires prev.total == SumAssets(prev.details) && Round2(prev.total) == prev.total && Round2(x.asset) == x.asset
    ensures var ds := prev.details + [x];
      Round2(prev.total + x.asset) == SumAssets(ds) && Round2(SumAssets(ds)) == SumAssets(ds)
  {
    Round2SumExact(prev.total, x.asset);
    var ds := prev.details + [x];
    assert ds[..|ds| - 1] == prev.details;
  }

  lemma AddScaleItemFacts(g: Groups<ScaleRecord>, code: string, name: string, e: FundScaleCrawler.ScaleEntry)
    requires Consistent(g)
    ensures Consistent(AddScaleItem(g, code, name, e))
    ensures forall d :: DetailsAt(AddScaleItem(g, code, name, e), d) == DetailsAt(g, d) + (if e.date == d then [ScaleDetail(code, name, NetAsset(e))] else [])
  {
    AddScaleItemTotals(g, code, name, e);
  }

  lemma {:induction false} AddScaleItemsFacts(g: Groups<ScaleRecord>, code: string, name: string, items: seq<FundScaleCrawler.ScaleEntry>)
    requires Consistent(g)
    ensures Consistent(AddScaleItems(g, code, name, items))
    ensures forall d :: DetailsAt(AddScaleItems(g, code, name, items), d) == DetailsAt(g, d) + ItemDetails(code, name, items, d)
    decreases |items|
  {
    if items != [] {
      var g1 := AddScaleItem(g, code, name, items[0]);
      AddScaleItemFacts(g, code, name, items[0]);
      AddScaleItemsFacts(g1, code, name, items[1..]);
      ItemsStep(g, code, name, items);
    }
  }

  /** How the details of one more item line up with one item fewer. */
  lemma ItemsStep(g: Groups<ScaleRecord>, code: string, name: string, items: seq<FundScaleCrawler.ScaleEntry>)
    requires items != []
    requires forall d :: (DetailsAt(AddScaleItem(g, code, name, items[0]), d) ==
      DetailsAt(g, d) + (if items[0].date == d then [ScaleDetail(code, name, NetAsset(items[0]))] else []))
    requires forall d :: (DetailsAt(AddScaleItems(AddScaleItem(g, code, name, items[0]), code, name, items[1..]), d) ==
      DetailsAt(AddScaleItem(g, code, name, items[0]), d) + ItemDetails(code, name, items[1..], d))
    ensures forall d :: DetailsAt(AddScaleItems(g, code, name, items), d) == DetailsAt(g, d) + ItemDetails(code, name, items, d)
  {
  }

  lemma {:induction false} AddScaleCrawlsFacts(g: Groups<ScaleRecord>, crawls: seq<ScaleCrawl>, nameOf: string -> Option<string>)
    requires Consistent(g)
    ensures Consistent(AddScaleCrawls(g, crawls, nameOf))
    ensures forall d :: DetailsAt(AddScaleCrawls(g, crawls, nameOf), d) == DetailsAt(g, d) + CrawlDetails(crawls, nameOf, d)
    decreases |crawls|
  {
    if crawls != [] {
      var next := AddCrawl(g, crawls[0], nameOf);
      AddCrawlFacts(g, crawls[0], nameOf);
      AddScaleCrawlsFacts(next, crawls[1..], nameOf);
      CrawlsStep(g, crawls, nameOf);
    }
  }

  /** How the details of one more crawl line up with one crawl fewer. */
  lemma CrawlsStep(g: Groups<ScaleRecord>, crawls: seq<ScaleCrawl>, nameOf: string -> Option<string>)
    requires crawls != []
    requires forall d :: DetailsAt(AddCrawl(g, crawls[0], nameOf), d) == DetailsAt(g, d) + CrawlOwn(crawls[0], nameOf, d)
    requires forall d :: (DetailsAt(AddScaleCrawls(AddCrawl(g, crawls[0], nameOf), crawls[1..], nameOf), d) ==
      DetailsAt(AddCrawl(g, crawls[0], nameOf), d) + CrawlDetails(crawls[1..], nameOf, d))
    ensures AddScaleCrawls(g, crawls, nameOf) == AddScaleCrawls(AddCrawl(g, crawls[0], nameOf), crawls[1..], nameOf)
    ensures forall d :: DetailsAt(AddScaleCrawls(g, crawls, nameOf), d) == DetailsAt(g, d) + CrawlDetails(crawls, nameOf, d)
  {
  }

  lemma AddCrawlFacts(g: Groups<ScaleRecord>, c: ScaleCrawl, nameOf: string -> Option<string>)
    requires Consistent(g)
    ensures Consistent(AddCrawl(g, c, nameOf))
    ensures forall d :: DetailsAt(AddCrawl(g, c, nameOf), d) == DetailsAt(g, d) + CrawlOwn(c, nameOf, d)
  {
    if Contributes(c.result) {
      AddScaleItemsFacts(g, c.code, NameOr(nameOf, c.code), c.result.data);
    }
  }

  /**
   * The aggregated list: at most five records with distinct dates, newest
   * first; each record's details are exactly the items of that date from
   * the contributing crawls, and its total is exactly the sum of their
   * (two-decimal) net assets.
   */
  lemma AggregateScaleMeaning(crawls: seq<ScaleCrawl>, nameOf: string -> Option<string>)
    ensures var r := AggregateScale(crawls, nameOf);
      |r| <= 5 && SortedDesc(r, RecordDate) && KeysDistinct(r, RecordDate) &&
      forall k :: 0 <= k < |r| ==>
        r[k].details == CrawlDetails(crawls, nameOf, r[k].date) && r[k].details != [] && r[k].total == SumAssets(r[k].details)
  {
    if crawls != [] {
      var g0: Groups<ScaleRecord> := Groups([], map[]);
      AddScaleCrawlsFacts(g0, crawls, nameOf);
      var g := AddScaleCrawls(g0, crawls, nameOf);
      var v := ValuesOf(g.order, g.records);
      ValuesOfGrouped(g, RecordDate);
      NewestShape(v, RecordDate, 5);
      NewestDistinct(v, RecordDate, 5);
      var r := AggregateScale(crawls, nameOf);
      forall k | 0 <= k < |r|
        ensures r[k].details == CrawlDetails(crawls, nameOf, r[k].date) && r[k].details != [] && r[k].total == SumAssets(r[k].details)
      {
        assert r[k] in multiset(v);
        var key :| key in g.records && g.records[key] == r[k];
        assert DetailsAt(g, key) == DetailsAt(g0, key) + CrawlDetails(crawls, nameOf, key);
      }
    }
  }

  /** A date some contributing item carries is in the result unless five newer-or-equal dates fill it. */
  lemma AggregateScaleComplete(crawls: seq<ScaleCrawl>, nameOf: string -> Option<string>, d: string)
    requires CrawlDetails(crawls, nameOf, d) != []
    ensures var r := AggregateScale(crawls, nameOf);
      (exists k :: 0 <= k < |r| && r[k].date == d) || (|r| == 5 && StrGe(r[4].date, d))
  {
    assert crawls != [];
    var g0: Groups<ScaleRecord> := Groups([], map[]);
    AddScaleCrawlsFacts(g0, crawls, nameOf);
    var g := AddScaleCrawls(g0, crawls, nameOf);
    assert DetailsAt(g, d) == DetailsAt(g0, d) + CrawlDetails(crawls, nameOf, d);
    var v := ValuesOf(g.order, g.records);
    ValuesOfGrouped(g, RecordDate);
    var x := g.records[d];
    assert x in v;
    var r := AggregateScale(crawls, nameOf);
    if x in r {
      var k :| 0 <= k < |r| && r[k] == x;
    } else {
      NewestKeepsNewest(v, RecordDate, 5, x);
    }
  }

  function Contributing(c: ScaleCrawl): bool { Contributes(c.result) }

  lemma {:induction false} SkipNonContributing(g: Groups<ScaleRecord>, crawls: seq<ScaleCrawl>, nameOf: string -> Option<string>)
    ensures AddScaleCrawls(g, crawls, nameOf) == AddScaleCrawls(g, Filter(crawls, Contributing), nameOf)
    decreases |crawls|
  {
    if crawls != [] {
      var c := crawls[0];
      var next := if Contributes(c.result) then AddScaleItems(g, c.code, NameOr(nameOf, c.code), c.result.data) else g;
      SkipNonContributing(next, crawls[1..], nameOf);
      var rest := Filter(crawls[1..], Contributing);
      if Contributing(c) {
        assert Filter(crawls, Contributing) == [c] + rest;
        assert ([c] + rest)[0] == c && ([c] + rest)[1..] == rest;
      } else {
        assert Filter(crawls, Contributing) == rest;
      }
    }
  }

  /** Failed, errored and empty crawls contribute nothing: dropping them leaves the aggregate unchanged. */
  lemma NonContributingIgnored(crawls: seq<ScaleCrawl>, nameOf: string -> Option<string>)
    ensures AggregateScale(crawls, nameOf) == AggregateScale(Filter(crawls, Contributing), nameOf)
  {
    SkipNonContributing(Groups([], map[]), crawls, nameOf);
  }

  // ---------------------------------------------------------------------
  // crawl_fund_cyrjg_data: shaping the matched table rows
  // ---------------------------------------------------------------------

  /** One match of the holder-table row pattern: date, institutional, individual and internal ratio, total shares. */
  datatype HolderRow = HolderRow(date: string, institution: string, individual: string, internal: string, shares: string)

  /** `{'日期', '机构持有比例', '总份额（亿份）'}`, all three kept as the matched text. */
  datatype HolderItem = HolderItem(date: string, ratio: string, shares: string)

  /**
   * `if not rows: failed`, otherwise the first five rows, each reduced to
   * its date, institutional ratio and total shares.
   */
  method ShapeHolderRows(rows: seq<HolderRow>) returns (r: FundScaleCrawler.CrawlResult<HolderItem>)
    ensures rows == [] <==> r.Failed?
    ensures !r.Errored?
    ensures r.Success? ==> |r.data| == (if |rows| < 5 then |rows| else 5)
    ensures r.Success? ==> forall k :: 0 <= k < |r.data| ==> r.data[k] == HolderItem(rows[k].date, rows[k].institution, rows[k].shares)
  {
    if rows == [] {
      return FundScaleCrawler.Failed;
    }
    var first := Take(rows, 5);
    var data: seq<HolderItem> := [];
    for k := 0 to |first|
      invariant |data| == k
      invariant forall j :: 0 <= j < k ==> data[j] == HolderItem(first[j].date, first[j].institution, first[j].shares)
    {
      var row := first[k];
      data := data + [HolderItem(row.date, row.institution, row.shares)];
    }
    return FundScaleCrawler.Success(data);
  }

  // ---------------------------------------------------------------------
  // aggregate_fund_cyrjg_data
  // ---------------------------------------------------------------------

  /** An element of `cyrjg_data_list`. */
  datatype HolderCrawl = HolderCrawl(code: string, result: FundScaleCrawler.CrawlResult<HolderItem>)

  /** An element of `基金明细`: the fund and its two texts as crawled. */
  datatype HolderDetail = HolderDetail(code: string, name: string, ratio: string, shares: string)

  /** A record of `date_cyrjg_map` while it is being filled. */
  datatype HolderRecord = HolderRecord(date: string, ratio: real, shares: real, details: seq<HolderDetail>)

  /** A record once its ratio has been formatted as `"x.xx%"`. */
  datatype HolderSummary = HolderSummary(date: string, ratio: string, shares: real, details: seq<HolderDetail>)

  function HolderDate(r: HolderRecord): string { r.date }

  function SummaryDate(r: HolderSummary): string { r.date }

  /** `float(t.rstrip('%')) if t.endswith('%') else float(t)`, and 0 on `ValueError`. */
  function ParseRatio(t: string): real {
    var p := if EndsWith(t, "%") then ParseFloat(RStripChar(t, '%')) else ParseFloat(t);
    if p.None? then 0.0 else p.value
  }

  /** `float(t) if t != '' else 0`, and 0 on `ValueError`. */
  function ParseShares(t: string): real {
    var p := if t == "" then Some(0.0) else ParseFloat(t);
    if p.None? then 0.0 else p.value
  }

  /** The share-weighted mean of two ratios. */
  function Mean(r0: real, s0: real, r: real, s: real): real
    requires s0 + s > 0.0
  {
    (r0 * s0 + r * s) / (s0 + s)
  }

  /** One weighted-average update of a date's (ratio, shares) by a fund's (ratio, shares), each result passed through `rnd`. */
  function Weigh(st: (real, real), p: (real, real), rnd: real -> real): (real, real) {
    var sum := st.1 + p.1;
    if sum > 0.0 then (rnd(Mean(st.0, st.1, p.0, p.1)), rnd(sum)) else (rnd(p.0), rnd(p.1))
  }

  /** The updates over a sequence of (ratio, shares) pairs, first to last. */
  function WeighAll(st: (real, real), ps: seq<(real, real)>, rnd: real -> real): (real, real) {
    if ps == [] then st else Weigh(WeighAll(st, ps[..|ps| - 1], rnd), ps[|ps| - 1], rnd)
  }

  function HolderPair(it: HolderItem): (real, real) { (ParseRatio(it.ratio), ParseShares(it.shares)) }

  function AddHolderItem(g: Groups<HolderRecord>, code: string, name: string, it: HolderItem, rnd: real -> real): Groups<HolderRecord> {
    var d := it.date;
    var prev := if d in g.records then g.records[d] else HolderRecord(d, 0.0, 0.0, []);
    var st := Weigh((prev.ratio, prev.shares), HolderPair(it), rnd);
    Groups(if d in g.records then g.order else g.order + [d],
           g.records[d := HolderRecord(d, st.0, st.1, prev.details + [HolderDetail(code, name, it.ratio, it.shares)])])
  }

  function AddHolderItems(g: Groups<HolderRecord>, code: string, name: string, items: seq<HolderItem>, rnd: real -> real): Groups<HolderRecord>
    decreases |items|
  {
    if items == [] then g else AddHolderItems(AddHolderItem(g, code, name, items[0], rnd), code, name, items[1..], rnd)
  }

  function AddHolderCrawls(g: Groups<HolderRecord>, crawls: seq<HolderCrawl>, nameOf: string -> Option<string>, rnd: real -> real): Groups<HolderRecord>
    decreases |crawls|
  {
    if crawls == [] then g
    else
      var c := crawls[0];
      var next := if Contributes(c.result) then AddHolderItems(g, c.code, NameOr(nameOf, c.code), c.result.data, rnd) else g;
      AddHolderCrawls(next, crawls[1..], nameOf, rnd)
  }

  /** `f"{ratio:.2f}%"`. */
  function Summarize(r: HolderRecord): HolderSummary {
    HolderSummary(r.date, Fmt2(r.ratio) + "%", r.shares, r.details)
  }

  function SummariesOf(rs: seq<HolderRecord>): (r: seq<HolderSummary>)
    ensures |r| == |rs| && forall k :: 0 <= k < |rs| ==> r[k] == Summarize(rs[k])
  {
    if rs == [] then [] else [Summarize(rs[0])] + SummariesOf(rs[1..])
  }

  /** What `aggregate_fund_cyrjg_data` returns: every update rounded to two decimals, as the code does. */
  function AggregateHolders(crawls: seq<HolderCrawl>, nameOf: string -> Option<string>): seq<HolderSummary> {
    if crawls == [] then []
    else
      var g := HolderGroups(crawls, nameOf);
      Newest(SummariesOf(ValuesOf(g.order, g.records)), SummaryDate, 5)
  }

  /** The inner loop of `aggregate_fund_cyrjg_data`: one fund's items folded into the dictionary. */
  method AddHolderItemsInPlace(order0: seq<string>, records0: map<string, HolderRecord>, code: string, name: string, data: seq<HolderItem>)
    returns (order: seq<string>, records: map<string, HolderRecord>)
    ensures Groups(order, records) == AddHolderItems(Groups(order0, records0), code, name, data, Round2)
  {
    order, records := order0, records0;
    for k := 0 to |data|
      invariant AddHolderItems(Groups(order, records), code, name, data[k..], Round2) == AddHolderItems(Groups(order0, records0), code, name, data, Round2)
    {
      var item := data[k];
      ghost var before := Groups(order, records);
      assert data[k..][1..] == data[k + 1..];
      var ratio := ParseRatio(item.ratio);
      var shares := ParseShares(item.shares);
      var rec := HolderRecord(item.date, 0.0, 0.0, []);
      if item.date in records {
        rec := records[item.date];
      } else {
        order := order + [item.date];
      }
      var sum := rec.shares + shares;
      var newRatio: real, newShares: real;
      if sum > 0.0 {
        var weighted := Mean(rec.ratio, rec.shares, ratio, shares);
        newRatio := Round2(weighted);
        newShares := Round2(sum);
      } else {
        newRatio := Round2(ratio);
        newShares := Round2(shares);
      }
      records := records[item.date := HolderRecord(item.date, newRatio, newShares, rec.details + [HolderDetail(code, name, item.ratio, item.shares)])];
      assert Groups(order, records) == AddHolderItem(before, code, name, item, Round2);
    }
    assert data[|data|..] == [];
  }

  /** The formatting loop: every ratio of the dictionary's values written as `"x.xx%"`. */
  method FormatRatios(values: seq<HolderRecord>) returns (formatted: seq<HolderSummary>)
    ensures formatted == SummariesOf(values)
  {
    formatted := [];
    for k := 0 to |values|
      invariant |formatted| == k
      invariant forall j :: 0 <= j < k ==> formatted[j] == Summarize(values[j])
    {
      var r := values[k];
      formatted := formatted + [HolderSummary(r.date, Fmt2(r.ratio) + "%", r.shares, r.details)];
    }
  }

  /** `aggregate_fund_cyrjg_data`, with the dictionary updated in nested loops and its ratios formatted in a last loop. */
  method AggregateHolderData(crawls: seq<HolderCrawl>, nameOf: string -> Option<string>) returns (result: seq<HolderSummary>)
    ensures result == AggregateHolders(crawls, nameOf)
  {
    if crawls == [] {
      return [];
    }
    var order: seq<string> := [];
    var records: map<string, HolderRecord> := map[];
    for i := 0 to |crawls|
      invariant AddHolderCrawls(Groups(order, records), crawls[i..], nameOf, Round2) == AddHolderCrawls(Groups([], map[]), crawls, nameOf, Round2)
    {
      var c := crawls[i];
      assert crawls[i..][1..] == crawls[i + 1..];
      if Contributes(c.result) {
        order, records := AddHolderItemsInPlace(order, records, c.code, NameOr(nameOf, c.code), c.result.data);
      }
    }
    var formatted := FormatRatios(ValuesOf(order, records));
    result := Newest(formatted, SummaryDate, 5);
  }

  // ---------------------------------------------------------------------
  // What the holder aggregation computes
  // ---------------------------------------------------------------------

  /** A trailing '%' makes no difference to the ratio read. */
  lemma RatioIgnoresPercent(t: string)
    ensures ParseRatio(t + "%") == ParseRatio(t)
  {
    EndsWithAppend(t, '%');
    if !EndsWith(t, "%") {
      assert RStripChar(t + "%", '%') == t by {
        assert (t + "%")[..|t|] == t;
      }
    } else {
      assert (t + "%")[..|t + "%"| - 1] == t;
    }
  }

  /** A text that is not a number (the site's '---') reads as 0. */
  lemma DashesReadAsZero()
    ensures ParseRatio("---") == 0.0 && ParseShares("---") == 0.0
  {
    UnsignedRejects("--", '-');
    UnsignedRejects("---", '-');
  }

  /** The formatted ratio reads back as the rounded ratio. */
  lemma FormattedRatioRoundTrip(x: real)
    ensures ParseRatio(Fmt2(x) + "%") == Round2(x)
  {
    RatioIgnoresPercent(Fmt2(x));
    Fmt2RoundTrip(x);
    var m := Magnitude(Hundredths(x));
    Unsigned2Value(m);
    assert Fmt2(x)[|Fmt2(x)| - 1] == Unsigned2(m)[|Unsigned2(m)| - 1];
  }

  function StateAt(g: Groups<HolderRecord>, d: string): (real, real) {
    if d in g.records then (g.records[d].ratio, g.records[d].shares) else (0.0, 0.0)
  }

  /** The (ratio, shares) pairs one fund's items contribute to date `d`, in order. */
  function ItemPairs(items: seq<HolderItem>, d: string): seq<(real, real)> {
    if items == [] then [] else (if items[0].date == d then [HolderPair(items[0])] else []) + ItemPairs(items[1..], d)
  }

  /** The (ratio, shares) pairs date `d` receives from all contributing crawls, in list order. */
  function HolderPairs(crawls: seq<HolderCrawl>, d: string): seq<(real, real)> {
    if crawls == [] then []
    else (if Contributes(crawls[0].result) then ItemPairs(crawls[0].result.data, d) else []) + HolderPairs(crawls[1..], d)
  }

  lemma {:induction false} WeighAllAppend(st: (real, real), a: seq<(real, real)>, b: seq<(real, real)>, rnd: real -> real)
    ensures WeighAll(st, a + b, rnd) == WeighAll(WeighAll(st, a, rnd), b, rnd)
    decreases |b|
  {
    if b == [] {
      assert a + b == a;
    } else {
      assert (a + b)[..|a + b| - 1] == a + b[..|b| - 1];
      WeighAllAppend(st, a, b[..|b| - 1], rnd);
    }
  }

  lemma AddHolderItemFacts(g: Groups<HolderRecord>, code: string, name: string, it: HolderItem, rnd: real -> real)
    requires Grouped(g, HolderDate)
    ensures var g1 := AddHolderItem(g, code, name, it, rnd);
      Grouped(g1, HolderDate) &&
      (forall d :: StateAt(g1, d) == WeighAll(StateAt(g, d), if it.date == d then [HolderPair(it)] else [], rnd)) &&
      (forall d :: d in g1.records <==> d in g.records || it.date == d)
  {
    var d := it.date;
    var prev := if d in g.records then g.records[d] else HolderRecord(d, 0.0, 0.0, []);
    var st := Weigh((prev.ratio, prev.shares), HolderPair(it), rnd);
    GroupedPut(g, d, HolderRecord(d, st.0, st.1, prev.details + [HolderDetail(code, name, it.ratio, it.shares)]), HolderDate);
    assert WeighAll(StateAt(g, d), [HolderPair(it)], rnd) == st;
  }

  lemma {:induction false} AddHolderItemsFacts(g: Groups<HolderRecord>, code: string, name: string, items: seq<HolderItem>, rnd: real -> real)
    requires Grouped(g, HolderDate)
    ensures var g1 := AddHolderItems(g, code, name, items, rnd);
      Grouped(g1, HolderDate) &&
      (forall d :: StateAt(g1, d) == WeighAll(StateAt(g, d), ItemPairs(items, d), rnd)) &&
      (forall d :: d in g1.records <==> d in g.records || ItemPairs(items, d) != [])
    decreases |items|
  {
    if items != [] {
      var g1 := AddHolderItem(g, code, name, items[0], rnd);
      AddHolderItemFacts(g, code, name, items[0], rnd);
      AddHolderItemsFacts(g1, code, name, items[1..], rnd);
      forall d ensures StateAt(AddHolderItems(g, code, name, items, rnd), d) == WeighAll(StateAt(g, d), ItemPairs(items, d), rnd) {
        var head := if items[0].date == d then [HolderPair(items[0])] else [];
        WeighAllAppend(StateAt(g, d), head, ItemPairs(items[1..], d), rnd);
      }
    }
  }

  lemma {:induction false} AddHolderCrawlsFacts(g: Groups<HolderRecord>, crawls: seq<HolderCrawl>, nameOf: string -> Option<string>, rnd: real -> real)
    requires Grouped(g, HolderDate)
    ensures var g1 := AddHolderCrawls(g, crawls, nameOf, rnd);
      Grouped(g1, HolderDate) &&
      (forall d :: StateAt(g1, d) == WeighAll(StateAt(g, d), HolderPairs(crawls, d), rnd)) &&
      (forall d :: d in g1.records <==> d in g.records || HolderPairs(crawls, d) != [])
    decreases |crawls|
  {
    if crawls != [] {
      var c := crawls[0];
      var next := if Contributes(c.result) then AddHolderItems(g, c.code, NameOr(nameOf, c.code), c.result.data, rnd) else g;
      var own := if Contributes(c.result) then ItemPairs(c.result.data, c.result.data[0].date) else [];
      if Contributes(c.result) {
        AddHolderItemsFacts(g, c.code, NameOr(nameOf, c.code), c.result.data, rnd);
      }
      assert Grouped(next, HolderDate);
      assert forall d :: StateAt(next, d) == WeighAll(StateAt(g, d), if Contributes(c.result) then ItemPairs(c.result.data, d) else [], rnd);
      assert forall d :: d in next.records <==> d in g.records || (Contributes(c.result) && ItemPairs(c.result.data, d) != []);
      AddHolderCrawlsFacts(next, crawls[1..], nameOf, rnd);
      var g1 := AddHolderCrawls(g, crawls, nameOf, rnd);
      assert g1 == AddHolderCrawls(next, crawls[1..], nameOf, rnd);
      forall d
        ensures StateAt(g1, d) == WeighAll(StateAt(g, d), HolderPairs(crawls, d), rnd)
        ensures d in g1.records <==> d in g.records || HolderPairs(crawls, d) != []
      {
        var head := if Contributes(c.result) then ItemPairs(c.result.data, d) else [];
        assert HolderPairs(crawls, d) == head + HolderPairs(crawls[1..], d);
        WeighAllAppend(StateAt(g, d), head, HolderPairs(crawls[1..], d), rnd);
      }
    }
  }

  /** The last update of a nonempty sequence is rounded, so its ratio is a whole number of hundredths. */
  lemma WeighAllRounded(st: (real, real), ps: seq<(real, real)>)
    requires ps != []
    ensures Round2(WeighAll(st, ps, Round2).0) == WeighAll(st, ps, Round2).0
  {
    var prev := WeighAll(st, ps[..|ps| - 1], Round2);
    var p := ps[|ps| - 1];
    if prev.1 + p.1 > 0.0 {
      Round2Idempotent(Mean(prev.0, prev.1, p.0, p.1));
    } else {
      Round2Idempotent(p.0);
    }
  }

  /** The dictionary built from the crawls at the code's rounding. */
  function HolderGroups(crawls: seq<HolderCrawl>, nameOf: string -> Option<string>): Groups<HolderRecord> {
    AddHolderCrawls(Groups([], map[]), crawls, nameOf, Round2)
  }

  /** A date has a record exactly when it received a pair, and the record holds the updates over its pairs. */
  lemma HolderGroupsAt(crawls: seq<HolderCrawl>, nameOf: string -> Option<string>, key: string)
    ensures var g := HolderGroups(crawls, nameOf);
      Grouped(g, HolderDate) && (key in g.records <==> HolderPairs(crawls, key) != []) &&
      StateAt(g, key) == WeighAll((0.0, 0.0), HolderPairs(crawls, key), Round2)
  {
    var g0: Groups<HolderRecord> := Groups([], map[]);
    AddHolderCrawlsFacts(g0, crawls, nameOf, Round2);
  }

  lemma HolderGroupsWellFormed(crawls: seq<HolderCrawl>, nameOf: string -> Option<string>)
    ensures Grouped(HolderGroups(crawls, nameOf), HolderDate)
  {
    HolderGroupsAt(crawls, nameOf, "");
  }

  /** A record listed by `ValuesOf` is stored under some listed key. */
  lemma {:induction false} InValuesOf<R>(order: seq<string>, records: map<string, R>, x: R)
    requires x in ValuesOf(order, records)
    ensures exists k :: k in order && k in records && records[k] == x
  {
    if order[0] in records && x == records[order[0]] {
      assert order[0] in order;
    } else {
      InValuesOf(order[1..], records, x);
      var k :| k in order[1..] && k in records && records[k] == x;
      assert k in order;
    }
  }

  lemma InSummariesOf(rs: seq<HolderRecord>, x: HolderSummary)
    requires x in SummariesOf(rs)
    ensures exists r :: r in rs && x == Summarize(r)
  {
    var k :| 0 <= k < |SummariesOf(rs)| && SummariesOf(rs)[k] == x;
    assert rs[k] in rs;
  }

  /** Every aggregated holder record is the summary of the group stored under its date. */
  lemma InAggregateHolders(crawls: seq<HolderCrawl>, nameOf: string -> Option<string>, x: HolderSummary)
    requires x in AggregateHolders(crawls, nameOf)
    ensures x.date in HolderGroups(crawls, nameOf).records
    ensures x == Summarize(HolderGroups(crawls, nameOf).records[x.date])
  {
    var g := HolderGroups(crawls, nameOf);
    var w := SummariesOf(ValuesOf(g.order, g.records));
    NewestFrom(w, SummaryDate, 5, x);
    InSummariesOf(ValuesOf(g.order, g.records), x);
    var r :| r in ValuesOf(g.order, g.records) && x == Summarize(r);
    InValuesOf(g.order, g.records, r);
    var k :| k in g.order && k in g.records && g.records[k] == r;
    HolderGroupsWellFormed(crawls, nameOf);
    assert HolderDate(g.records[k]) == k;
  }

  /** One aggregated holder record, read back through its formatted ratio. */
  lemma AggregateHoldersEach(crawls: seq<HolderCrawl>, nameOf: string -> Option<string>, x: HolderSummary)
    requires x in AggregateHolders(crawls, nameOf)
    ensures var ps := HolderPairs(crawls, x.date);
      ps != [] && ParseRatio(x.ratio) == WeighAll((0.0, 0.0), ps, Round2).0 && x.shares == WeighAll((0.0, 0.0), ps, Round2).1
  {
    InAggregateHolders(crawls, nameOf, x);
    var rec := HolderGroups(crawls, nameOf).records[x.date];
    HolderGroupsAt(crawls, nameOf, x.date);
    SummaryReadsBack(rec, HolderPairs(crawls, x.date));
  }

  /** A record holding the updates over nonempty pairs shows a ratio that reads back exactly. */
  lemma SummaryReadsBack(rec: HolderRecord, ps: seq<(real, real)>)
    requires ps != [] && (rec.ratio, rec.shares) == WeighAll((0.0, 0.0), ps, Round2)
    ensures ParseRatio(Summarize(rec).ratio) == WeighAll((0.0, 0.0), ps, Round2).0
    ensures Summarize(rec).shares == WeighAll((0.0, 0.0), ps, Round2).1
  {
    FormattedRatioRoundTrip(rec.ratio);
    WeighAllRounded((0.0, 0.0), ps);
  }

  /**
   * The aggregated holder list: at most five records with distinct dates,
   * newest first; each one's formatted ratio reads back as the ratio, and
   * ratio and shares are the weighted updates over exactly the (ratio,
   * shares) pairs that date received.
   */
  lemma AggregateHoldersMeaning(crawls: seq<HolderCrawl>, nameOf: string -> Option<string>)
    ensures var r := AggregateHolders(crawls, nameOf);
      |r| <= 5 && SortedDesc(r, SummaryDate) && KeysDistinct(r, SummaryDate) &&
      forall k :: 0 <= k < |r| ==> (
        var ps := HolderPairs(crawls, r[k].date);
        ps != [] && ParseRatio(r[k].ratio) == WeighAll((0.0, 0.0), ps, Round2).0 && r[k].shares == WeighAll((0.0, 0.0), ps, Round2).1)
  {
    if crawls != [] {
      var g := HolderGroups(crawls, nameOf);
      HolderGroupsAt(crawls, nameOf, "");
      var v := ValuesOf(g.order, g.records);
      ValuesOfGrouped(g, HolderDate);
      var w := SummariesOf(v);
      assert KeysDistinct(w, SummaryDate);
      NewestShape(w, SummaryDate, 5);
      NewestDistinct(w, SummaryDate, 5);
      var r := AggregateHolders(crawls, nameOf);
      forall k | 0 <= k < |r|
        ensures var ps := HolderPairs(crawls, r[k].date);
          ps != [] && ParseRatio(r[k].ratio) == WeighAll((0.0, 0.0), ps, Round2).0 && r[k].shares == WeighAll((0.0, 0.0), ps, Round2).1
      {
        AggregateHoldersEach(crawls, nameOf, r[k]);
      }
    }
  }

  /** The identity: the holder aggregation with its rounding left out. */
  function Exact(x: real): real { x }

  /** Total shares, added up first to last. */
  function SumShares(ps: seq<(real, real)>): real {
    if ps == [] then 0.0 else SumShares(ps[..|ps| - 1]) + ps[|ps| - 1].1
  }

  /** Total of ratio times shares, added up first to last. */
  function SumWeighted(ps: seq<(real, real)>): real {
    if ps == [] then 0.0 else SumWeighted(ps[..|ps| - 1]) + ps[|ps| - 1].0 * ps[|ps| - 1].1
  }

  lemma MeanTimesSum(r0: real, s0: real, r: real, s: real)
    requires s0 + s > 0.0
    ensures Mean(r0, s0, r, s) * (s0 + s) == r0 * s0 + r * s
  {
  }

  /**
   * Ignoring rounding, and with non-negative share counts: the shares are
   * the total of the shares, ratio times shares is the total of ratio times
   * shares (so the ratio is the share-weighted mean whenever the shares are
   * positive), and while the shares are 0 the ratio is the latest one read.
   */
  lemma {:induction false} ExactMean(ps: seq<(real, real)>)
    requires forall k :: 0 <= k < |ps| ==> ps[k].1 >= 0.0
    ensures var st := WeighAll((0.0, 0.0), ps, Exact);
      st.1 == SumShares(ps) && st.0 * st.1 == SumWeighted(ps) &&
      (st.1 > 0.0 ==> st.0 == SumWeighted(ps) / SumShares(ps)) &&
      (st.1 == 0.0 && ps != [] ==> st.0 == ps[|ps| - 1].0)
  {
    if ps != [] {
      var init := ps[..|ps| - 1];
      ExactMean(init);
      var st := WeighAll((0.0, 0.0), init, Exact);
      var p := ps[|ps| - 1];
      if st.1 + p.1 > 0.0 {
        MeanTimesSum(st.0, st.1, p.0, p.1);
      } else {
        assert st.1 == 0.0 && p.1 == 0.0;
      }
    }
  }

  lemma ScaleBetween(x: real, w: real, lo: real, hi: real)
    requires w >= 0.0 && lo <= x <= hi
    ensures lo * w <= x * w <= hi * w
  {
  }
  lemma WeightedBetween(r0: real, s0: real, r: real, s: real, lo: real, hi: real)
    requires s0 >= 0.0 && s >= 0.0
    requires lo <= r <= hi && (s0 == 0.0 || lo <= r0 <= hi)
    ensures lo * (s0 + s) <= r0 * s0 + r * s <= hi * (s0 + s)
  {
    if s0 == 0.0 {
      assert r0 * s0 == 0.0 && lo * s0 == 0.0 && hi * s0 == 0.0;
    } else {
      ScaleBetween(r0, s0, lo, hi);
    }
    ScaleBetween(r, s, lo, hi);
    assert lo * (s0 + s) == lo * s0 + lo * s && hi * (s0 + s) == hi * s0 + hi * s;
  }
  lemma QuotientBetween(x: real, t: real, lo: real, hi: real)
    requires t > 0.0 && lo * t <= x <= hi * t
    ensures lo <= x / t <= hi
  {
  }

  /** A share-weighted mean of two ratios in `[lo, hi]` stays in `[lo, hi]`. */
  lemma MeanBetween(r0: real, s0: real, r: real, s: real, lo: real, hi: real)
    requires s0 >= 0.0 && s >= 0.0 && s0 + s > 0.0
    requires lo <= r <= hi && (s0 == 0.0 || lo <= r0 <= hi)
    ensures lo <= Mean(r0, s0, r, s) <= hi
  {
    var x, t := r0 * s0 + r * s, s0 + s;
    WeightedBetween(r0, s0, r, s, lo, hi);
    QuotientBetween(x, t, lo, hi);
    assert Mean(r0, s0, r, s) == x / t;
  }

  /**
   * With the code's rounding, and non-negative share counts: when every
   * ratio read lies between two two-decimal bounds, so does the aggregated
   * ratio, and the aggregated shares are never negative.
   */
  lemma {:induction false} RoundedMeanBounds(ps: seq<(real, real)>, lo: real, hi: real)
    requires Round2(lo) == lo && Round2(hi) == hi
    requires forall k :: 0 <= k < |ps| ==> ps[k].1 >= 0.0 && lo <= ps[k].0 <= hi
    ensures var st := WeighAll((0.0, 0.0), ps, Round2);
      st.1 >= 0.0 && (ps != [] ==> lo <= st.0 <= hi) && (ps == [] ==> st.0 == 0.0 && st.1 == 0.0)
  {
    if ps != [] {
      var init := ps[..|ps| - 1];
      RoundedMeanBounds(init, lo, hi);
      var st := WeighAll((0.0, 0.0), init, Round2);
      var p := ps[|ps| - 1];
      var x := if st.1 + p.1 > 0.0 then Mean(st.0, st.1, p.0, p.1) else p.0;
      if st.1 + p.1 > 0.0 {
        MeanBetween(st.0, st.1, p.0, p.1, lo, hi);
      }
      Round2Monotone(lo, x);
      Round2Monotone(x, hi);
    }
  }

  /* ---- The cache written by `update_fund_data_json` and read by `process_fund_data_with_cache` ---- */

  const MicrosPerDay: int := 86400000000

  /** `timedelta(days=n)` exists; a larger magnitude raises `OverflowError`. */
  predicate DaysFit(n: int) { -999999999 <= n <= 999999999 }

  /**
   * `datetime.now() - update_time < timedelta(days=cache_days)`, with the
   * current moment given as a date and the microseconds elapsed since its
   * midnight, and the update time at midnight as `strptime` leaves it.
   */
  predicate Fresh(now: Dates.Date, micros: int, updated: Dates.Date, cacheDays: int)
    requires Dates.Valid(now) && Dates.Valid(updated) && 0 <= micros < MicrosPerDay
  {
    (Dates.Ordinal(now) - Dates.Ordinal(updated)) * MicrosPerDay + micros < cacheDays * MicrosPerDay
  }

  lemma MulLe(a: int, b: int, k: int)
    requires a <= b && k >= 0
    ensures a * k <= b * k
  {
    assert b * k - a * k == (b - a) * k;
  }

  /** The time of day never matters: the cache is fresh exactly when fewer than `cache_days` calendar days have passed. */
  lemma FreshInDays(now: Dates.Date, micros: int, updated: Dates.Date, cacheDays: int)
    requires Dates.Valid(now) && Dates.Valid(updated) && 0 <= micros < MicrosPerDay
    ensures Fresh(now, micros, updated, cacheDays) <==> Dates.Ordinal(now) - Dates.Ordinal(updated) < cacheDays
  {
    var d := Dates.Ordinal(now) - Dates.Ordinal(updated);
    if d < cacheDays {
      MulLe(d, cacheDays - 1, MicrosPerDay);
    } else {
      MulLe(cacheDays, d, MicrosPerDay);
    }
  }

  /** The 更新时间 text stored for `code`, when the file holds an object whose entry for `code` is an object with a string there. */
  function StoredUpdateTime(cache: Option<Json.JValue>, code: string): (r: Option<string>)
    ensures r.Some? <==> (cache.Some? && cache.value.JObj? && code in cache.value.fields
      && cache.value.fields[code].JObj? && "更新时间" in cache.value.fields[code].fields
      && cache.value.fields[code].fields["更新时间"].JStr?)
    ensures r.Some? ==> r.value == cache.value.fields[code].fields["更新时间"].s
  {
    match cache
    case Some(JObj(all)) =>
      if code in all then
        match all[code]
        case JObj(info) =>
          if "更新时间" in info then
            match info["更新时间"]
            case JStr(t) => Some(t)
            case _ => None
          else None
        case _ => None
      else None
    case _ => None
  }

  /**
   * Whether `process_fund_data_with_cache` returns early on the cached copy.
   * `cache` is the decoded file, `None` when it is missing or does not
   * decode; every exception inside the check falls through to a refetch.
   */
  function UseCache(cache: Option<Json.JValue>, code: string, now: Dates.Date, micros: int, cacheDays: int): (r: bool)
    requires Dates.Valid(now) && 0 <= micros < MicrosPerDay
    ensures r <==> (StoredUpdateTime(cache, code).Some? && Dates.ParseYmd(StoredUpdateTime(cache, code).value).Some?
      && DaysFit(cacheDays)
      && Dates.Ordinal(now) - Dates.Ordinal(Dates.ParseYmd(StoredUpdateTime(cache, code).value).value) < cacheDays)
  {
    match StoredUpdateTime(cache, code)
    case None => false
    case Some(t) =>
      match Dates.ParseYmd(t)
      case None => false
      case Some(updated) =>
        FreshInDays(now, micros, updated, cacheDays);
        DaysFit(cacheDays) && Fresh(now, micros, updated, cacheDays)
  }

  /** The keys `update_fund_data_json` writes into a fund's entry. */
  const EntryKeys: set<string> := {"基金名称", "规模数据", "持有人结构", "更新时间"}

  /**
   * `update_fund_data_json`: the entry for `code` (created empty when
   * absent) gets its name, both aggregates and today's date; `None` when the
   * existing entry is not an object, where `.update` raises.
   */
  function UpdateFundData(all: map<string, Json.JValue>, code: string, name: string,
                          scale: Json.JValue, holders: Json.JValue, today: Dates.Date): (r: Option<map<string, Json.JValue>>)
    requires Dates.Valid(today)
    ensures r.None? <==> code in all && !all[code].JObj?
    ensures r.Some? ==> r.value.Keys == all.Keys + {code}
    ensures r.Some? ==> forall k :: k in all && k != code ==> r.value[k] == all[k]
    ensures r.Some? ==> r.value[code].JObj?
    ensures r.Some? ==> r.value[code].fields.Keys == (if code in all then all[code].fields.Keys else {}) + EntryKeys
    ensures r.Some? ==> var e := r.value[code].fields;
      e["基金名称"] == Json.JStr(name) && e["规模数据"] == scale && e["持有人结构"] == holders &&
      e["更新时间"] == Json.JStr(Dates.FormatYmd(today))
    ensures r.Some? && code in all ==> forall k :: k in all[code].fields && k !in EntryKeys ==>
      r.value[code].fields[k] == all[code].fields[k]
  {
    var old_ := if code in all then all[code] else Json.JObj(map[]);
    match old_
    case JObj(info) =>
      Some(all[code := Json.JObj(info["基金名称" := Json.JStr(name)]["规模数据" := scale]
                                     ["持有人结构" := holders]["更新时间" := Json.JStr(Dates.FormatYmd(today))])])
    case _ => None
  }

  /** Data written on `today` is reused exactly while fewer than `cache_days` days have passed since. */
  lemma CacheAfterUpdate(all: map<string, Json.JValue>, code: string, name: string, scale: Json.JValue,
                         holders: Json.JValue, today: Dates.Date, now: Dates.Date, micros: int, cacheDays: int)
    requires Dates.Valid(today) && Dates.Valid(now) && 0 <= micros < MicrosPerDay
    requires UpdateFundData(all, code, name, scale, holders, today).Some?
    ensures var stored := Some(Json.JObj(UpdateFundData(all, code, name, scale, holders, today).value));
      UseCache(stored, code, now, micros, cacheDays) <==> DaysFit(cacheDays) && Dates.Ordinal(now) - Dates.Ordinal(today) < cacheDays
  {
    var stored := Some(Json.JObj(UpdateFundData(all, code, name, scale, holders, today).value));
    assert StoredUpdateTime(stored, code) == Some(Dates.FormatYmd(today));
    Dates.ParseFormat(today);
  }
}
