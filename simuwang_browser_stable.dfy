/**
 * The browser session on the fund site (`simuwang_browser_stable.py`):
 * opening the site, reading the stage-return table of a fund page into
 * records, merging them with the drawdown into the fund data file, and
 * the loop over the requested codes. The browser is a `driver` field that
 * the methods set and quit; what the site shows (whether the browser
 * starts and the page loads, whether login and each search succeed, the
 * cell texts of each fund page) arrives as parameters. The fund data file
 * is an `Option<JValue>`: `None` when it is absent or cannot be read, which
 * the script treats alike.
 */
module SimuwangBrowserStable {
  import opened Common
  import opened Json
  import opened ParseDrawdownData

  /** A browser session; `alive` is false once it has been quit. */
  datatype Session = Session(alive: bool)

  /** `driver.quit()` on whatever driver is set. */
  function Quit(driver: Option<Session>): (r: Option<Session>)
    ensures r.None? <==> driver.None?
    ensures r.Some? ==> !r.value.alive
  {
    if driver.Some? then Some(Session(false)) else None
  }

  /**
   * A fund page after its search: whether the drawdown table appears, the
   * page the drawdown parser sees, and the rows of the stage-return table
   * (`None` when clicking through to it or finding it raises), each a
   * sequence of cells whose text is `None` where its lookup raises.
   */
  datatype FundPage = FundPage(tableShown: bool, drawdown: Page, stage: Option<seq<seq<Option<string>>>>)

  const IntervalKey: string := "区间"
  const FundReturnKey: string := "基金收益"
  const BenchmarkKey: string := "业绩比较基准"
  const ExcessKey: string := "超额收益(几何)"
  const PeerAverageKey: string := "同类平均"
  const PercentKey: string := "百分比"
  const StageReturnsKey: string := "区间收益"
  const DrawdownKey: string := "回撤数据"

  /** The text of cell `k`, "" where there is none. */
  function CellText(cells: seq<Option<string>>, k: nat): string {
    if k < |cells| && cells[k].Some? then cells[k].value else ""
  }

  function Percent(s: string): JValue {
    JObj(map[PercentKey := JStr(s)])
  }

  /** The record built from a row of the stage-return table. */
  function Record(cells: seq<Option<string>>): JValue {
    JObj(map[
      IntervalKey := JStr(CellText(cells, 0)),
      FundReturnKey := Percent(CellText(cells, 1)),
      BenchmarkKey := Percent(CellText(cells, 2)),
      ExcessKey := Percent(CellText(cells, 3)),
      PeerAverageKey := Percent(CellText(cells, 4))])
  }

  /** A record has exactly the five keys, the interval as text and each figure under "百分比". */
  lemma RecordShape(cells: seq<Option<string>>)
    requires |cells| >= 5 && forall k :: 0 <= k < 5 ==> cells[k].Some?
    ensures Record(cells).JObj?
    ensures Record(cells).fields.Keys == {IntervalKey, FundReturnKey, BenchmarkKey, ExcessKey, PeerAverageKey}
    ensures Record(cells).fields[IntervalKey] == JStr(cells[0].value)
    ensures Record(cells).fields[FundReturnKey] == JObj(map[PercentKey := JStr(cells[1].value)])
    ensures Record(cells).fields[BenchmarkKey] == JObj(map[PercentKey := JStr(cells[2].value)])
    ensures Record(cells).fields[ExcessKey] == JObj(map[PercentKey := JStr(cells[3].value)])
    ensures Record(cells).fields[PeerAverageKey] == JObj(map[PercentKey := JStr(cells[4].value)])
  {
  }

  /** Rows with at least five cells are read; shorter ones are skipped. */
  function LongMask(): seq<Option<string>> -> bool {
    (cells: seq<Option<string>>) => |cells| >= 5
  }

  /** The five cells read from a row all have their text. */
  predicate RowRead(cells: seq<Option<string>>) {
    |cells| < 5 || forall k :: 0 <= k < 5 ==> cells[k].Some?
  }

  function Records(rows: seq<seq<Option<string>>>): (r: seq<JValue>)
    ensures |r| == |rows| && forall k :: 0 <= k < |rows| ==> r[k] == Record(rows[k])
  {
    seq(|rows|, k requires 0 <= k < |rows| => Record(rows[k]))
  }

  /** `data_list`: `None` when a lookup in a kept row raises, otherwise one record per kept row, in order. */
  function DataList(rows: seq<seq<Option<string>>>): Option<seq<JValue>> {
    if forall i :: 0 <= i < |rows| ==> RowRead(rows[i]) then Some(Records(Filter(rows, LongMask()))) else None
  }

  /** One more row adds its record exactly when it has five cells or more. */
  lemma StageStep(rows: seq<seq<Option<string>>>, i: nat)
    requires i < |rows|
    ensures Records(Filter(rows[..i + 1], LongMask())) ==
      Records(Filter(rows[..i], LongMask())) + if |rows[i]| >= 5 then [Record(rows[i])] else []
  {
    assert rows[..i + 1] == rows[..i] + [rows[i]];
    FilterAppend(rows[..i], [rows[i]], LongMask());
    assert [rows[i]][1..] == [];
    var a := Filter(rows[..i], LongMask());
    var b := Filter([rows[i]], LongMask());
    assert Records(a + b) == Records(a) + Records(b);
  }

  /** The loop over the stage-return rows. */
  method ReadStageRows(rows: seq<seq<Option<string>>>) returns (dataList: Option<seq<JValue>>)
    ensures dataList == DataList(rows)
  {
    var data: seq<JValue> := [];
    for i := 0 to |rows|
      invariant forall j :: 0 <= j < i ==> RowRead(rows[j])
      invariant data == Records(Filter(rows[..i], LongMask()))
    {
      var cells := rows[i];
      StageStep(rows, i);
      if |cells| >= 5 {
        if cells[0].None? || cells[1].None? || cells[2].None? || cells[3].None? || cells[4].None? {
          assert !RowRead(rows[i]);
          return None;
        }
        data := data + [Record(cells)];
      }
    }
    assert rows[..|rows|] == rows;
    dataList := Some(data);
  }

  /**
   * The rows are read in full exactly when every kept row has its five
   * texts, and then there is one record per row of five or more cells,
   * never more records than rows, each with exactly the five keys.
   */
  lemma DataListMeaning(rows: seq<seq<Option<string>>>)
    ensures DataList(rows).Some? <==> forall i :: 0 <= i < |rows| && |rows[i]| >= 5 ==> forall k :: 0 <= k < 5 ==> rows[i][k].Some?
    ensures DataList(rows).Some? ==> |DataList(rows).value| == |Filter(rows, LongMask())| <= |rows|
    ensures DataList(rows).Some? ==> forall k :: 0 <= k < |DataList(rows).value| ==>
      DataList(rows).value[k].JObj? &&
      DataList(rows).value[k].fields.Keys == {IntervalKey, FundReturnKey, BenchmarkKey, ExcessKey, PeerAverageKey}
  {
    if DataList(rows).Some? {
      var kept := Filter(rows, LongMask());
      forall k | 0 <= k < |kept|
        ensures Record(kept[k]).JObj?
        ensures Record(kept[k]).fields.Keys == {IntervalKey, FundReturnKey, BenchmarkKey, ExcessKey, PeerAverageKey}
      {
        assert kept[k] in kept;
        assert LongMask()(kept[k]) && kept[k] in rows;
        var i :| 0 <= i < |rows| && rows[i] == kept[k];
        assert RowRead(rows[i]);
        RecordShape(kept[k]);
      }
    }
  }

  /** A dictionary filled from pairs in order, a later pair replacing an earlier one. */
  function PairsObject(pairs: seq<(string, string)>): map<string, JValue> {
    if pairs == [] then map[]
    else PairsObject(pairs[..|pairs| - 1])[pairs[|pairs| - 1].0 := JStr(pairs[|pairs| - 1].1)]
  }

  /** With keys all different, the dictionary holds each pair's text under its key, and nothing else. */
  lemma PairsObjectMeaning(pairs: seq<(string, string)>)
    requires forall j, k :: 0 <= j < k < |pairs| ==> pairs[j].0 != pairs[k].0
    ensures PairsObject(pairs).Keys == set k | 0 <= k < |pairs| :: pairs[k].0
    ensures forall k :: 0 <= k < |pairs| ==> PairsObject(pairs)[pairs[k].0] == JStr(pairs[k].1)
  {
    PairsObjectKeys(pairs);
    PairsObjectValues(pairs);
  }

  /** The keys of the dictionary are the keys of the pairs. */
  lemma {:induction false} PairsObjectKeys(pairs: seq<(string, string)>)
    ensures PairsObject(pairs).Keys == set k | 0 <= k < |pairs| :: pairs[k].0
  {
    if pairs != [] {
      var n := |pairs| - 1;
      var init := pairs[..n];
      PairsObjectKeys(init);
      var before := set k | 0 <= k < n :: init[k].0;
      var after := set k | 0 <= k < |pairs| :: pairs[k].0;
      forall x | x in after
        ensures x in before + {pairs[n].0}
      {
        var k :| 0 <= k < |pairs| && pairs[k].0 == x;
        if k < n {
          assert init[k].0 == x;
        }
      }
      forall x | x in before
        ensures x in after
      {
        var k :| 0 <= k < n && init[k].0 == x;
        assert pairs[k].0 == x;
      }
      assert pairs[n].0 in after;
    }
  }

  /** With keys all different, each key holds the text of its own pair. */
  lemma {:induction false} PairsObjectValues(pairs: seq<(string, string)>)
    requires forall j, k :: 0 <= j < k < |pairs| ==> pairs[j].0 != pairs[k].0
    ensures forall k :: 0 <= k < |pairs| ==> pairs[k].0 in PairsObject(pairs) && PairsObject(pairs)[pairs[k].0] == JStr(pairs[k].1)
  {
    if pairs != [] {
      var n := |pairs| - 1;
      var init := pairs[..n];
      assert forall k :: 0 <= k < n ==> init[k] == pairs[k];
      PairsObjectValues(init);
      forall k | 0 <= k < n
        ensures pairs[k].0 in PairsObject(pairs) && PairsObject(pairs)[pairs[k].0] == JStr(pairs[k].1)
      {
        assert pairs[k].0 != pairs[n].0 && init[k] == pairs[k];
      }
    }
  }

  /** The dictionary `json.load` gives, `{}` when the file is absent or unreadable. */
  function Loaded(store: Option<JValue>): JValue {
    if store.None? then JObj(map[]) else store.value
  }

  /**
   * The merge of `extract_data`: the code's entry (created empty when
   * missing) gets the records and the drawdown, and every other key of
   * the entry and every other code keeps its value; `None` for the
   * `TypeError` raised when the file or the entry is not a dictionary.
   */
  function Merge(store: Option<JValue>, code: string, dataList: seq<JValue>, drawdown: seq<(string, string)>): (r: Option<JValue>)
    ensures r.Some? <==>
      (Loaded(store).JObj? && (code in Loaded(store).fields ==> Loaded(store).fields[code].JObj?))
    ensures r.Some? ==>
      var all := Loaded(store).fields;
      var merged := r.value;
      merged.JObj? && merged.fields.Keys == all.Keys + {code} &&
      (forall c :: c in all && c != code ==> merged.fields[c] == all[c]) &&
      merged.fields[code].JObj? &&
      (code in all ==> merged.fields[code].fields.Keys == all[code].fields.Keys + {StageReturnsKey, DrawdownKey}) &&
      (code !in all ==> merged.fields[code].fields.Keys == {StageReturnsKey, DrawdownKey}) &&
      merged.fields[code].fields[StageReturnsKey] == JArr(dataList) &&
      merged.fields[code].fields[DrawdownKey] == JObj(PairsObject(drawdown)) &&
      (code in all ==> forall k :: k in all[code].fields && k != StageReturnsKey && k != DrawdownKey ==>
        merged.fields[code].fields[k] == all[code].fields[k])
  {
    var all := Loaded(store);
    if !all.JObj? then None
    else
      var entry := if code in all.fields then all.fields[code] else JObj(map[]);
      if !entry.JObj? then None
      else Some(JObj(all.fields[code := JObj(entry.fields[StageReturnsKey := JArr(dataList)][DrawdownKey := JObj(PairsObject(drawdown))])]))
  }

  /**
   * `extract_data(code)` with the given driver on the given page: whether
   * it returns `True`, and the file afterwards. The file is written only
   * when the records are read in full, there is at least one, and the
   * merge succeeds.
   */
  function ExtractResult(driver: Option<Session>, code: string, page: FundPage, store: Option<JValue>): (r: (bool, Option<JValue>))
    ensures !r.0 ==> r.1 == store
    ensures r.1 == store ||
      (page.stage.Some? && DataList(page.stage.value).Some? &&
       r.1 == Merge(store, code, DataList(page.stage.value).value, Drawdown(Some(page.drawdown))))
    ensures r.0 <==>
      (driver.Some? && driver.value.alive && page.tableShown && page.stage.Some? && DataList(page.stage.value).Some? &&
       (DataList(page.stage.value).value == [] ||
        Merge(store, code, DataList(page.stage.value).value, Drawdown(Some(page.drawdown))).Some?))
    ensures r.0 && page.stage.Some? && DataList(page.stage.value).Some? && DataList(page.stage.value).value != [] ==>
      r.1 == Merge(store, code, DataList(page.stage.value).value, Drawdown(Some(page.drawdown)))
    ensures r.0 && page.stage.Some? && DataList(page.stage.value) == Some([]) ==> r.1 == store
  {
    if driver.None? || !driver.value.alive || !page.tableShown || page.stage.None? then (false, store)
    else
      match DataList(page.stage.value)
      case None => (false, store)
      case Some(dataList) =>
        if dataList == [] then (true, store)
        else
          match Merge(store, code, dataList, Drawdown(Some(page.drawdown)))
          case None => (false, store)
          case Some(merged) => (true, Some(merged))
  }

  /** The code argument of `simuwang`: a string, a list of strings, or anything else. */
  datatype CodeArg = StrArg(s: string) | ListArg(items: seq<string>) | OtherArg

  /** The codes to query: one for a string, the list itself for a list, `None` otherwise. */
  function FundCodes(arg: CodeArg): Option<seq<string>> {
    match arg
    case StrArg(s) => Some([s])
    case ListArg(items) => Some(items)
    case OtherArg => None
  }

  /** The entry a file holds for a code, if the file is a dictionary that has one. */
  function Entry(store: Option<JValue>, code: string): Option<JValue> {
    if Loaded(store).JObj? && code in Loaded(store).fields then Some(Loaded(store).fields[code]) else None
  }

  /** The file after querying the codes in order, each found code extracted with a live browser. */
  function StoreAfter(codes: seq<string>, found: string -> bool, pages: string -> FundPage, store: Option<JValue>): Option<JValue> {
    if codes == [] then store
    else
      var before := StoreAfter(codes[..|codes| - 1], found, pages, store);
      var code := codes[|codes| - 1];
      if found(code) then ExtractResult(Some(Session(true)), code, pages(code), before).1 else before
  }

  /** Extracting one code leaves every other code's entry as it was. */
  lemma ExtractKeepsOthers(code: string, page: FundPage, store: Option<JValue>, other: string)
    requires other != code
    ensures Entry(ExtractResult(Some(Session(true)), code, page, store).1, other) == Entry(store, other)
  {
    var after := ExtractResult(Some(Session(true)), code, page, store).1;
  }

  /**
   * A code whose search fails is never extracted: whatever else is
   * queried, its entry in the file stays as it was.
   */
  lemma {:induction false} SkippedUntouched(codes: seq<string>, found: string -> bool, pages: string -> FundPage, store: Option<JValue>, code: string)
    requires !found(code)
    ensures Entry(StoreAfter(codes, found, pages, store), code) == Entry(store, code)
  {
    if codes != [] {
      var init := codes[..|codes| - 1];
      var last := codes[|codes| - 1];
      SkippedUntouched(init, found, pages, store, code);
      if found(last) {
        ExtractKeepsOthers(last, pages(last), StoreAfter(init, found, pages, store), code);
      }
    }
  }

  /** Codes queried after the last query of `code` leave its entry as that query left it. */
  lemma {:induction false} LaterCodesKeep(codes: seq<string>, j: nat, found: string -> bool, pages: string -> FundPage, store: Option<JValue>, code: string)
    requires j <= |codes| && forall k :: j <= k < |codes| ==> codes[k] != code
    ensures Entry(StoreAfter(codes, found, pages, store), code) == Entry(StoreAfter(codes[..j], found, pages, store), code)
  {
    if j < |codes| {
      var init := codes[..|codes| - 1];
      var last := codes[|codes| - 1];
      assert init[..j] == codes[..j];
      LaterCodesKeep(init, j, found, pages, store, code);
      if found(last) {
        ExtractKeepsOthers(last, pages(last), StoreAfter(init, found, pages, store), code);
      }
    } else {
      assert codes[..j] == codes;
    }
  }

  /**
   * A found code whose stage returns are read in full, hold at least one
   * record, and merge into the file, ends the run with those records and
   * its drawdown in its entry, unless it is queried again later.
   */
  lemma FoundRecordsStored(codes: seq<string>, j: nat, found: string -> bool, pages: string -> FundPage, store: Option<JValue>)
    requires j < |codes| && found(codes[j]) && (forall k :: j < k < |codes| ==> codes[k] != codes[j])
    requires pages(codes[j]).tableShown && pages(codes[j]).stage.Some?
    requires DataList(pages(codes[j]).stage.value).Some? && DataList(pages(codes[j]).stage.value).value != []
    requires Merge(StoreAfter(codes[..j], found, pages, store), codes[j], DataList(pages(codes[j]).stage.value).value,
      Drawdown(Some(pages(codes[j]).drawdown))).Some?
    ensures var e := Entry(StoreAfter(codes, found, pages, store), codes[j]);
      e.Some? && e.value.JObj? && StageReturnsKey in e.value.fields && DrawdownKey in e.value.fields &&
      e.value.fields[StageReturnsKey] == JArr(DataList(pages(codes[j]).stage.value).value) &&
      e.value.fields[DrawdownKey] == JObj(PairsObject(Drawdown(Some(pages(codes[j]).drawdown))))
  {
    var code := codes[j];
    LaterCodesKeep(codes, j + 1, found, pages, store, code);
    assert codes[..j + 1][..j] == codes[..j];
  }

  class SimuwangBrowser {
    var driver: Option<Session>
    var config: JValue

    /** A browser with no driver yet and the settings file, `{}` when it is absent or unreadable. */
    constructor(configFile: Option<JValue>)
      ensures driver == None
      ensures config == if configFile.None? then JObj(map[]) else configFile.value
    {
      driver := None;
      config := if configFile.None? then JObj(map[]) else configFile.value;
    }

    /**
     * `open_simuwang`: a started browser is set as the driver and, should
     * the page fail to load, quit; a browser that fails to start leaves
     * the previous driver in place, quit if it was set.
     */
    method OpenSimuwang(launches: bool, loads: bool) returns (ok: bool)
      modifies this
      ensures ok <==> launches && loads
      ensures driver == if launches then Some(Session(loads)) else Quit(old(driver))
      ensures config == old(config)
    {
      if !launches {
        driver := Quit(driver);
        return false;
      }
      driver := Some(Session(true));
      if !loads {
        driver := Quit(driver);
        return false;
      }
      ok := true;
    }

    /** `close`: the driver, if set, is quit. */
    method Close()
      modifies this
      ensures driver == Quit(old(driver))
      ensures config == old(config)
    {
      driver := Quit(driver);
    }

    /** `extract_data(code)` on the page the driver shows; the file is the only thing it changes. */
    method ExtractData(code: string, page: FundPage, store: Option<JValue>) returns (ok: bool, written: Option<JValue>)
      ensures (ok, written) == ExtractResult(driver, code, page, store)
    {
      if driver.None? || !driver.value.alive || !page.tableShown {
        return false, store;
      }
      var r, calls := ParseDrawdownWithRetry(Some(page.drawdown));
      var drawdown := r.v;
      if page.stage.None? {
        return false, store;
      }
      var dataList := ReadStageRows(page.stage.value);
      if dataList.None? {
        return false, store;
      }
      if dataList.value == [] {
        return true, store;
      }
      var merged := Merge(store, code, dataList.value, drawdown);
      if merged.None? {
        return false, store;
      }
      ok, written := true, merged;
    }
  }

  /**
   * `simuwang(code)`: open the site (through the retry decorator), log in,
   * then query each code in turn, extracting the found ones, and close the
   * browser whatever happened. Nothing is queried when the site does not
   * open, login fails or the argument is neither a string nor a list.
   */
  method Simuwang(arg: CodeArg, configFile: Option<JValue>, launches: bool, loads: bool, loggedIn: bool,
                  found: string -> bool, pages: string -> FundPage, store: Option<JValue>)
    returns (out: Option<JValue>, browser: SimuwangBrowser)
    ensures !(launches && loads && loggedIn) || arg.OtherArg? ==> out == store
    ensures launches && loads && loggedIn && FundCodes(arg).Some? ==> out == StoreAfter(FundCodes(arg).value, found, pages, store)
    ensures browser.driver == if launches then Some(Session(false)) else None
  {
    browser := new SimuwangBrowser(configFile);
    out := store;
    var started := browser.OpenSimuwang(launches, loads);
    var open := (attempt: nat) => Completed(started);
    var r, calls := RetryOnNetworkError(3, open);
    assert !open(0).Threw?;
    if !r.v || !loggedIn || FundCodes(arg).None? {
      browser.Close();
      return;
    }
    var codes := FundCodes(arg).value;
    for i := 0 to |codes|
      invariant browser.driver == Some(Session(true))
      invariant out == StoreAfter(codes[..i], found, pages, store)
    {
      assert codes[..i + 1][..i] == codes[..i];
      var code := codes[i];
      if found(code) {
        var ok;
        ok, out := browser.ExtractData(code, pages(code), out);
      }
    }
    assert codes[..|codes|] == codes;
    browser.Close();
  }
}
