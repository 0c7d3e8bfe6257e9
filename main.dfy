/**
 * The in-place updates `main.py` makes to the fund data file after the
 * style factors are extracted: the nearest index of each style factor is
 * copied in from `find_similar_index`'s result, then every watch-list code
 * gets its turnover from `parse_fund_data`. Any exception aborts both (the
 * outer handler catches it and the file is not written), so each update is
 * an `Option` whose `None` is that exception. The file is taken to hold a
 * dictionary, as the extraction before it writes one.
 */
module MainScript {
  import opened Common
  import opened Json
  import JiuquanFund

  const StyleKey: string := "风格因子"
  const NearestKey: string := "近似指数"
  const TurnoverKey: string := "换手率"

  /**
   * One entry of `find_similar_index`'s result in iteration order: the code
   * and, for each of its factors in order, the factor's name and the
   * `近似指数` that every factor of that result carries.
   */
  datatype SimilarItem = SimilarItem(code: string, nearest: seq<(string, string)>)

  /**
   * The innermost step for one factor of a code in the file: when the
   * entry has "风格因子" and that holds the factor, the factor's
   * "近似指数" is set, and nothing else of the entry changes; `None` for
   * the `TypeError` of a test or an assignment on something that is not a
   * dictionary.
   */
  function SetNearest(entry: JValue, factor: string, index: string): (r: Option<JValue>)
    ensures entry.JObj? && StyleKey !in entry.fields ==> r == Some(entry)
    ensures entry.JObj? && StyleKey in entry.fields && entry.fields[StyleKey].JObj? && factor !in entry.fields[StyleKey].fields ==>
      r == Some(entry)
    ensures Slot(entry, factor) ==>
      r.Some? &&
      var after := r.value;
      Slot(after, factor) &&
      after.fields.Keys == entry.fields.Keys &&
      (forall k :: k in entry.fields && k != StyleKey ==> after.fields[k] == entry.fields[k]) &&
      after.fields[StyleKey].fields.Keys == entry.fields[StyleKey].fields.Keys &&
      (forall g :: g in entry.fields[StyleKey].fields && g != factor ==> after.fields[StyleKey].fields[g] == entry.fields[StyleKey].fields[g]) &&
      SlotOf(after, factor) == SlotOf(entry, factor)[NearestKey := JStr(index)]
  {
    match PyIn(StyleKey, entry)
    case None => None
    case Some(hasStyles) =>
      if !hasStyles then Some(entry)
      else if !entry.JObj? then None
      else
        var styles := entry.fields[StyleKey];
        match PyIn(factor, styles)
        case None => None
        case Some(hasFactor) =>
          if !hasFactor then Some(entry)
          else if !styles.JObj? || !styles.fields[factor].JObj? then None
          else
            var slot := styles.fields[factor].fields;
            Some(JObj(entry.fields[StyleKey := JObj(styles.fields[factor := JObj(slot[NearestKey := JStr(index)])])]))
  }

  /** The factor has a dictionary under "风格因子" of a dictionary entry, ready to take its "近似指数". */
  predicate Slot(entry: JValue, factor: string) {
    entry.JObj? && StyleKey in entry.fields && entry.fields[StyleKey].JObj? &&
    factor in entry.fields[StyleKey].fields && entry.fields[StyleKey].fields[factor].JObj?
  }

  function SlotOf(entry: JValue, factor: string): map<string, JValue>
    requires Slot(entry, factor)
  {
    entry.fields[StyleKey].fields[factor].fields
  }

  /** The inner loop for one code: its factors in order, stopping at the first exception. */
  function EntryNearest(entry: JValue, nearest: seq<(string, string)>): Option<JValue> {
    if nearest == [] then Some(entry)
    else
      var last := nearest[|nearest| - 1];
      match EntryNearest(entry, nearest[..|nearest| - 1])
      case None => None
      case Some(e) => SetNearest(e, last.0, last.1)
  }

  /**
   * A factor ready in the entry stays ready through the inner loop; it
   * ends with the index listed for it when it is listed (factor names are
   * the keys of a dictionary, so it is listed at most once), and is left
   * as it was otherwise.
   */
  lemma {:induction false} EntryNearestMeaning(entry: JValue, nearest: seq<(string, string)>, factor: string)
    requires Slot(entry, factor)
    requires forall i, j :: 0 <= i < j < |nearest| ==> nearest[i].0 != nearest[j].0
    ensures EntryNearest(entry, nearest).Some? ==> Slot(EntryNearest(entry, nearest).value, factor)
    ensures EntryNearest(entry, nearest).Some? ==>
      forall k :: 0 <= k < |nearest| && nearest[k].0 == factor ==>
        SlotOf(EntryNearest(entry, nearest).value, factor) == SlotOf(entry, factor)[NearestKey := JStr(nearest[k].1)]
    ensures EntryNearest(entry, nearest).Some? && (forall k :: 0 <= k < |nearest| ==> nearest[k].0 != factor) ==>
      EntryNearest(entry, nearest).value.fields[StyleKey].fields[factor] == entry.fields[StyleKey].fields[factor]
  {
    if nearest != [] {
      var n := |nearest| - 1;
      var init := nearest[..n];
      assert forall k :: 0 <= k < n ==> init[k] == nearest[k];
      EntryNearestMeaning(entry, init, factor);
      var before := EntryNearest(entry, init);
      if before.Some? {
        if nearest[n].0 != factor {
          var e := before.value;
          var g := nearest[n].0;
          if SetNearest(e, g, nearest[n].1).Some? && g in e.fields[StyleKey].fields {
            assert SetNearest(e, g, nearest[n].1).value.fields[StyleKey].fields[factor] == e.fields[StyleKey].fields[factor];
          }
        }
      }
    }
  }

  /** The loops of lines 64-71 over the similar-index result: only codes already in the file are touched. */
  function NearestAll(data: map<string, JValue>, items: seq<SimilarItem>): (r: Option<map<string, JValue>>)
    ensures r.Some? ==> r.value.Keys == data.Keys
  {
    if items == [] then Some(data)
    else
      var item := items[|items| - 1];
      match NearestAll(data, items[..|items| - 1])
      case None => None
      case Some(d) =>
        if item.code !in d then Some(d)
        else
          match EntryNearest(d[item.code], item.nearest)
          case None => None
          case Some(e) => Some(d[item.code := e])
  }

  /**
   * The merge of nearest indices adds no code and changes only the
   * entries of codes in the similar-index result; with codes all
   * different (they are a dictionary's keys), such an entry is the inner
   * loop applied to the entry the file held.
   */
  lemma {:induction false} NearestAllMeaning(data: map<string, JValue>, items: seq<SimilarItem>)
    requires forall i, j :: 0 <= i < j < |items| ==> items[i].code != items[j].code
    ensures NearestAll(data, items).Some? ==> NearestAll(data, items).value.Keys == data.Keys
    ensures NearestAll(data, items).Some? ==>
      forall c :: c in data && (forall i :: 0 <= i < |items| ==> items[i].code != c) ==> NearestAll(data, items).value[c] == data[c]
    ensures NearestAll(data, items).Some? ==>
      forall i :: 0 <= i < |items| && items[i].code in data ==>
        EntryNearest(data[items[i].code], items[i].nearest) == Some(NearestAll(data, items).value[items[i].code])
  {
    if NearestAll(data, items).Some? {
      NearestInduct(data, items);
    }
  }

  /** The file after the similar-funds loop over `items`. */
  ghost predicate Nearested(data: map<string, JValue>, items: seq<SimilarItem>, d: map<string, JValue>) {
    d.Keys == data.Keys &&
    (forall c :: c in data && (forall i :: 0 <= i < |items| ==> items[i].code != c) ==> d[c] == data[c]) &&
    (forall i :: 0 <= i < |items| && items[i].code in data ==> EntryNearest(data[items[i].code], items[i].nearest) == Some(d[items[i].code]))
  }

  lemma {:induction false} NearestInduct(data: map<string, JValue>, items: seq<SimilarItem>)
    requires forall i, j :: 0 <= i < j < |items| ==> items[i].code != items[j].code
    requires NearestAll(data, items).Some?
    ensures Nearested(data, items, NearestAll(data, items).value)
  {
    if items != [] {
      var n := |items| - 1;
      var init := items[..n];
      assert forall k :: 0 <= k < n ==> init[k] == items[k];
      NearestInduct(data, init);
      NearestStep(data, init, NearestAll(data, init).value, items[n], NearestAll(data, items).value);
      assert items == init + [items[n]];
    }
  }

  /** One more turn of the outer loop, on a code not met before, keeps the description of the file. */
  lemma NearestStep(data: map<string, JValue>, init: seq<SimilarItem>, d0: map<string, JValue>, item: SimilarItem, d: map<string, JValue>)
    requires Nearested(data, init, d0)
    requires forall i :: 0 <= i < |init| ==> init[i].code != item.code
    requires item.code !in d0 ==> d == d0
    requires item.code in d0 ==> item.code in d && EntryNearest(d0[item.code], item.nearest) == Some(d[item.code]) && d == d0[item.code := d[item.code]]
    ensures Nearested(data, init + [item], d)
  {
    var items := init + [item];
    assert forall i :: 0 <= i < |init| ==> items[i] == init[i];
    assert items[|init|] == item;
  }

  /** Once a factor raises, the inner loop has raised, whatever follows. */
  lemma {:induction false} EntryNearestRaised(entry: JValue, nearest: seq<(string, string)>, k: nat)
    requires k <= |nearest| && EntryNearest(entry, nearest[..k]).None?
    ensures EntryNearest(entry, nearest).None?
  {
    if k < |nearest| {
      var init := nearest[..|nearest| - 1];
      assert init[..k] == nearest[..k];
      EntryNearestRaised(entry, init, k);
    } else {
      assert nearest[..k] == nearest;
    }
  }

  /** The inner loop, over the factors of one code. */
  method UpdateEntry(entry: JValue, nearest: seq<(string, string)>) returns (r: Option<JValue>)
    ensures r == EntryNearest(entry, nearest)
  {
    var e := entry;
    for k := 0 to |nearest|
      invariant EntryNearest(entry, nearest[..k]) == Some(e)
    {
      assert nearest[..k + 1][..k] == nearest[..k];
      var step := SetNearest(e, nearest[k].0, nearest[k].1);
      if step.None? {
        EntryNearestRaised(entry, nearest, k + 1);
        return None;
      }
      e := step.value;
    }
    assert nearest[..|nearest|] == nearest;
    r := Some(e);
  }

  lemma NearestAllStep(data: map<string, JValue>, items: seq<SimilarItem>, i: nat)
    requires i < |items|
    ensures NearestAll(data, items[..i + 1]) ==
      match NearestAll(data, items[..i])
      case None => None
      case Some(d) =>
        if items[i].code !in d then Some(d)
        else
          match EntryNearest(d[items[i].code], items[i].nearest)
          case None => None
          case Some(e) => Some(d[items[i].code := e])
  {
    assert items[..i + 1][..i] == items[..i];
  }

  lemma {:induction false} NearestAllRaised(data: map<string, JValue>, items: seq<SimilarItem>, i: nat)
    requires i <= |items| && NearestAll(data, items[..i]).None?
    ensures NearestAll(data, items).None?
  {
    if i < |items| {
      var init := items[..|items| - 1];
      assert init[..i] == items[..i];
      NearestAllRaised(data, init, i);
    } else {
      assert items[..i] == items;
    }
  }

  /** Lines 64-71: the nearest index of each factor, code by code. */
  method AddNearest(data: map<string, JValue>, items: seq<SimilarItem>) returns (r: Option<map<string, JValue>>)
    ensures r == NearestAll(data, items)
  {
    var d := data;
    for i := 0 to |items|
      invariant NearestAll(data, items[..i]) == Some(d)
    {
      NearestAllStep(data, items, i);
      var code := items[i].code;
      if code in d {
        var e := UpdateEntry(d[code], items[i].nearest);
        if e.None? {
          NearestAllRaised(data, items, i + 1);
          return None;
        }
        d := d[code := e.value];
      }
    }
    assert items[..|items|] == items;
    r := Some(d);
  }

  /** Lines 73-74: each code's entry gets its turnover; `None` for the `KeyError` of a missing code or a non-dictionary entry. */
  function TurnoverAll(data: map<string, JValue>, codes: seq<string>, turnover: string -> JValue): (r: Option<map<string, JValue>>)
    ensures r.Some? ==> r.value.Keys == data.Keys
    ensures r.Some? ==> forall c :: c in codes ==>
      c in data && r.value[c].JObj? && TurnoverKey in r.value[c].fields && r.value[c].fields[TurnoverKey] == turnover(c)
  {
    if codes == [] then Some(data)
    else
      var code := codes[|codes| - 1];
      assert codes == codes[..|codes| - 1] + [code];
      match TurnoverAll(data, codes[..|codes| - 1], turnover)
      case None => None
      case Some(d) =>
        if code !in d || !d[code].JObj? then None
        else Some(d[code := JObj(d[code].fields[TurnoverKey := turnover(code)])])
  }

  /**
   * The turnover loop succeeds exactly when every code is in the file with
   * a dictionary entry; it then adds no code, gives every listed code its
   * turnover, and changes nothing else: no other key of those entries, no
   * other code's entry.
   */
  lemma {:induction false} TurnoverMeaning(data: map<string, JValue>, codes: seq<string>, turnover: string -> JValue)
    ensures TurnoverAll(data, codes, turnover).Some? <==> forall i :: 0 <= i < |codes| ==> codes[i] in data && data[codes[i]].JObj?
    ensures TurnoverAll(data, codes, turnover).Some? ==>
      var d := TurnoverAll(data, codes, turnover).value;
      d.Keys == data.Keys &&
      (forall c :: c in data && c !in codes ==> d[c] == data[c]) &&
      (forall c :: c in codes ==>
        d[c].JObj? && d[c].fields.Keys == data[c].fields.Keys + {TurnoverKey} && d[c].fields[TurnoverKey] == turnover(c) &&
        forall k :: k in data[c].fields && k != TurnoverKey ==> d[c].fields[k] == data[c].fields[k])
  {
    TurnoverInduct(data, codes, turnover);
  }

  /** An entry after `entry['换手率'] = t`, once or more: `t` under the key, every other key kept. */
  ghost predicate EntryTurned(e: JValue, e': JValue, t: JValue) {
    e.JObj? && e'.JObj? && e'.fields.Keys == e.fields.Keys + {TurnoverKey} && e'.fields[TurnoverKey] == t &&
    forall k :: k in e.fields && k != TurnoverKey ==> e'.fields[k] == e.fields[k]
  }

  /** The file after the turnover loop over `codes`. */
  ghost predicate TurnedOver(data: map<string, JValue>, codes: seq<string>, turnover: string -> JValue, d: map<string, JValue>) {
    d.Keys == data.Keys &&
    (forall c :: c in data && c !in codes ==> d[c] == data[c]) &&
    (forall c :: c in codes ==> c in data && EntryTurned(data[c], d[c], turnover(c)))
  }

  lemma {:induction false} TurnoverInduct(data: map<string, JValue>, codes: seq<string>, turnover: string -> JValue)
    ensures TurnoverAll(data, codes, turnover).Some? <==> forall i :: 0 <= i < |codes| ==> codes[i] in data && data[codes[i]].JObj?
    ensures TurnoverAll(data, codes, turnover).Some? ==> TurnedOver(data, codes, turnover, TurnoverAll(data, codes, turnover).value)
  {
    if codes != [] {
      var n := |codes| - 1;
      var init := codes[..n];
      assert forall k :: 0 <= k < n ==> init[k] == codes[k];
      assert codes == init + [codes[n]];
      TurnoverInduct(data, init, turnover);
      var r0 := TurnoverAll(data, init, turnover);
      if r0.Some? && codes[n] in r0.value && r0.value[codes[n]].JObj? {
        TurnoverStep(data, init, turnover, r0.value, codes[n]);
      }
    }
  }

  /** One more turn of the loop keeps the description of the file. */
  lemma TurnoverStep(data: map<string, JValue>, init: seq<string>, turnover: string -> JValue, d0: map<string, JValue>, code: string)
    requires TurnedOver(data, init, turnover, d0) && code in d0 && d0[code].JObj?
    ensures TurnedOver(data, init + [code], turnover, d0[code := JObj(d0[code].fields[TurnoverKey := turnover(code)])])
  {
    var codes := init + [code];
    var d := d0[code := JObj(d0[code].fields[TurnoverKey := turnover(code)])];
    assert forall c :: c in codes <==> c in init || c == code;
    assert EntryTurned(data[code], d[code], turnover(code));
  }

  lemma {:induction false} TurnoverRaised(data: map<string, JValue>, codes: seq<string>, turnover: string -> JValue, i: nat)
    requires i <= |codes| && TurnoverAll(data, codes[..i], turnover).None?
    ensures TurnoverAll(data, codes, turnover).None?
  {
    if i < |codes| {
      var init := codes[..|codes| - 1];
      assert init[..i] == codes[..i];
      TurnoverRaised(data, init, turnover, i);
    } else {
      assert codes[..i] == codes;
    }
  }

  /** Lines 73-74, the loop over the watch-list codes. */
  method AddTurnover(data: map<string, JValue>, codes: seq<string>, turnover: string -> JValue) returns (r: Option<map<string, JValue>>)
    ensures r == TurnoverAll(data, codes, turnover)
  {
    var d := data;
    for i := 0 to |codes|
      invariant TurnoverAll(data, codes[..i], turnover) == Some(d)
    {
      assert codes[..i + 1][..i] == codes[..i];
      var code := codes[i];
      if code !in d || !d[code].JObj? {
        TurnoverRaised(data, codes, turnover, i + 1);
        return None;
      }
      d := d[code := JObj(d[code].fields[TurnoverKey := turnover(code)])];
    }
    assert codes[..|codes|] == codes;
    r := Some(d);
  }

  /** What `parse_fund_data(code)` hands back, from the reply to the code's request: its value, `None` as null. */
  function TurnoverOf(replies: string -> Outcome<string>, loads: string -> Option<JValue>): string -> JValue {
    code => match JiuquanFund.ParseFundData(replies(code), loads) case None => JNull case Some(v) => v
  }

  /**
   * Lines 60-77: the file after both updates, or `None` when one of them
   * raised and the file is left unwritten.
   */
  method UpdateFundFile(data: map<string, JValue>, items: seq<SimilarItem>, codes: seq<string>,
                        replies: string -> Outcome<string>, loads: string -> Option<JValue>)
    returns (written: Option<map<string, JValue>>)
    ensures written.Some? <==> NearestAll(data, items).Some? && TurnoverAll(NearestAll(data, items).value, codes, TurnoverOf(replies, loads)).Some?
    ensures written.Some? ==> written == TurnoverAll(NearestAll(data, items).value, codes, TurnoverOf(replies, loads))
  {
    var nearest := AddNearest(data, items);
    if nearest.None? {
      return None;
    }
    written := AddTurnover(nearest.value, codes, TurnoverOf(replies, loads));
  }

  /**
   * The whole update keeps the file's codes and gives every watch-list
   * code its turnover; it raises whenever a watch-list code is missing from
   * the file.
   */
  lemma UpdateMeaning(data: map<string, JValue>, items: seq<SimilarItem>, codes: seq<string>, turnover: string -> JValue)
    requires forall i, j :: 0 <= i < j < |items| ==> items[i].code != items[j].code
    ensures (exists i :: 0 <= i < |codes| && codes[i] !in data) ==>
      NearestAll(data, items).None? || TurnoverAll(NearestAll(data, items).value, codes, turnover).None?
    ensures NearestAll(data, items).Some? && TurnoverAll(NearestAll(data, items).value, codes, turnover).Some? ==>
      var d := TurnoverAll(NearestAll(data, items).value, codes, turnover).value;
      d.Keys == data.Keys && forall c :: c in codes ==> d[c].JObj? && TurnoverKey in d[c].fields && d[c].fields[TurnoverKey] == turnover(c)
  {
    NearestAllMeaning(data, items);
    if NearestAll(data, items).Some? {
      TurnoverMeaning(NearestAll(data, items).value, codes, turnover);
    }
  }
}
