/**
 * The decision rules of the style-factor extraction
 * (`complete_fund_style_extraction.py`): whether a date string is today's,
 * when the cached file is reused and which part of it is returned, the
 * top-10 share read out of a holdings label, and `find_similar_index`, which
 * pairs every style factor of every fund with the nearest index.
 * "Today" is a parameter; the parsed JSON files are inputs.
 */
module StyleExtraction {
  import opened Common
  import opened Json
  import opened Decimal
  import Dates

  /* ---- is_today and the cache of the extraction ---- */

  /**
   * `is_today`: a non-empty `%Y-%m-%d` string naming `today`; a `ValueError`
   * from `strptime` gives false, so text it refuses is never today.
   */
  predicate IsToday(s: string, today: Dates.Date)
    ensures IsToday(s, today) ==> Dates.Valid(today) && |s| >= 8 && s[4] == '-'
  {
    s != "" && Dates.ParseYmd(s) == Some(today)
  }

  /** `strftime("%Y-%m-%d")` writes digits and '-' only, a space nowhere. */
  lemma FormatHasNoSpace(d: Dates.Date)
    requires Dates.Valid(d)
    ensures ' ' !in Dates.FormatYmd(d)
  {
    var r := Dates.FormatYmd(d);
    assert forall i :: 0 <= i < |r| ==> IsDigit(r[i]) || r[i] == '-';
  }

  /** A date written out is today's exactly when it is today. */
  lemma IsTodayOfFormatted(d: Dates.Date, today: Dates.Date)
    requires Dates.Valid(d)
    ensures IsToday(Dates.FormatYmd(d), today) <==> d == today
  {
    Dates.ParseFormat(d);
  }

  /** The `update_time` text of an object's `_metadata` entry, when both are there and it is a string. */
  function UpdateTime(data: map<string, JValue>): (r: Option<string>)
    ensures r.Some? <==> ("_metadata" in data && data["_metadata"].JObj? && "update_time" in data["_metadata"].fields
                         && data["_metadata"].fields["update_time"].JStr?)
  {
    if "_metadata" in data then
      match data["_metadata"]
      case JObj(meta) =>
        if "update_time" in meta then
          match meta["update_time"]
          case JStr(t) => Some(t)
          case _ => None
        else None
      case _ => None
    else None
  }

  /**
   * `load_cached_data`: the decoded file (`None` when it is missing or does
   * not decode) is returned when its `_metadata.update_time`, cut at the first
   * space, is today's date; every other shape ends in `None`, through a false
   * test or through an exception the function catches.
   */
  function LoadCached(file: Option<JValue>, today: Dates.Date): (r: Option<map<string, JValue>>)
    ensures r.Some? <==> (file.Some? && file.value.JObj? && UpdateTime(file.value.fields).Some?
                         && IsToday(BeforeFirst(UpdateTime(file.value.fields).value, ' '), today))
    ensures r.Some? ==> r.value == file.value.fields && "_metadata" in r.value
  {
    if file.Some? && file.value.JObj? then
      var data := file.value.fields;
      match UpdateTime(data)
      case Some(t) => if IsToday(BeforeFirst(t, ' '), today) then Some(data) else None
      case None => None
    else None
  }

  /** `strftime("%Y-%m-%d %H:%M:%S")`, the format the `_metadata.update_time` is written in. */
  function TimeStamp(d: Dates.Date, h: int, m: int, s: int): string
    requires Dates.Valid(d) && 0 <= h < 24 && 0 <= m < 60 && 0 <= s < 60
  {
    Dates.FormatYmd(d) + " " + Dates.Pad2(h) + ":" + Dates.Pad2(m) + ":" + Dates.Pad2(s)
  }

  /** A file stamped on day `d` is loaded back exactly on day `d`, at any time of that day. */
  lemma LoadStamped(data: map<string, JValue>, meta: map<string, JValue>, d: Dates.Date, h: int, m: int, s: int,
                    today: Dates.Date)
    requires Dates.Valid(d) && 0 <= h < 24 && 0 <= m < 60 && 0 <= s < 60
    requires "_metadata" in data && data["_metadata"] == JObj(meta)
    requires "update_time" in meta && meta["update_time"] == JStr(TimeStamp(d, h, m, s))
    ensures LoadCached(Some(JObj(data)), today).Some? <==> d == today
  {
    var day := Dates.FormatYmd(d);
    var rest := Dates.Pad2(h) + ":" + Dates.Pad2(m) + ":" + Dates.Pad2(s);
    assert TimeStamp(d, h, m, s) == day + [' '] + rest;
    FormatHasNoSpace(d);
    BeforeFirstSplit(day, rest, ' ');
    IsTodayOfFormatted(d, today);
  }

  /** The requested codes the cache has, as the key set of `funds_in_cache`. */
  function CachedCodes(data: map<string, JValue>, codes: seq<string>): set<string> {
    set c | c in codes && c in data
  }

  /**
   * The cache-hit test of `extract_fund_style_factors`: the requested
   * entries are returned when the dictionary of those found has as many keys
   * as there are requested codes.
   */
  function CachedSubset(data: map<string, JValue>, codes: seq<string>): (r: Option<map<string, JValue>>)
    ensures r.Some? ==> r.value.Keys == CachedCodes(data, codes)
    ensures r.Some? ==> forall c :: c in r.value ==> c in data && r.value[c] == data[c]
  {
    var found := CachedCodes(data, codes);
    if |found| == |codes| then Some(map c | c in found :: data[c]) else None
  }

  /** The cache serves the request exactly when the codes are distinct and all cached; a repeated code forces a refetch. */
  lemma CachedSubsetIff(data: map<string, JValue>, codes: seq<string>)
    ensures CachedSubset(data, codes).Some? <==> NoDuplicates(codes) && forall i :: 0 <= i < |codes| ==> codes[i] in data
    ensures CachedSubset(data, codes).Some? ==> CachedSubset(data, codes).value.Keys == set c | c in codes
  {
    var found := CachedCodes(data, codes);
    var all := set c | c in codes;
    DistinctCount(codes);
    SubsetCard(found, all);
    if |found| == |codes| {
      SubsetFull(found, all);
      forall i | 0 <= i < |codes| ensures codes[i] in data {
        assert codes[i] in all;
      }
    }
    if NoDuplicates(codes) && forall i :: 0 <= i < |codes| ==> codes[i] in data {
      assert found == all;
    }
  }

  /** What `extract_fund_style_factors` returns without opening a browser, if anything. */
  function CachedStyleFactors(file: Option<JValue>, today: Dates.Date, codes: seq<string>): (r: Option<map<string, JValue>>)
    ensures r.Some? ==> LoadCached(file, today).Some? && r == CachedSubset(LoadCached(file, today).value, codes)
    ensures LoadCached(file, today).Some? ==> r == CachedSubset(LoadCached(file, today).value, codes)
    ensures r.Some? <==>
      (LoadCached(file, today).Some? && NoDuplicates(codes) &&
       forall i :: 0 <= i < |codes| ==> codes[i] in LoadCached(file, today).value)
  {
    match LoadCached(file, today)
    case Some(data) =>
      CachedSubsetIff(data, codes);
      CachedSubset(data, codes)
    case None => None
  }

  /* ---- The top-10 share: re.search(r'前10占比(\d+\.?\d*)%', info) ---- */

  const Top10Label: string := "前10占比"

  /**
   * The match of `前10占比(\d+\.?\d*)%` at the start of `s`, giving the group.
   * Backtracking cannot help: a shorter digit run leaves a digit where the
   * '%' or the '.' would have to be.
   */
  function Top10At(s: string): (r: Option<string>)
    ensures r.Some? ==> StartsWith(s, Top10Label) && |r.value| > 0 && IsDigit(r.value[0])
    ensures r.Some? ==> forall i :: 0 <= i < |r.value| ==> IsNumChar(r.value[i])
    ensures r.Some? ==> |Top10Label| + |r.value| < |s| && s[|Top10Label|..|Top10Label| + |r.value|] == r.value
                        && s[|Top10Label| + |r.value|] == '%'
  {
    if !StartsWith(s, Top10Label) then None
    else
      var t := s[|Top10Label|..];
      var d1 := DigitRun(t);
      if d1 == 0 then None
      else if d1 < |t| && t[d1] == '%' then Some(t[..d1])
      else if d1 < |t| && t[d1] == '.' then
        var d2 := DigitRun(t[d1 + 1..]);
        if d1 + 1 + d2 < |t| && t[d1 + 1 + d2] == '%' then
          assert forall i :: d1 < i < d1 + 1 + d2 ==> t[i] == t[d1 + 1..][i - d1 - 1];
          Some(t[..d1 + 1 + d2])
        else None
      else None
  }

  /** `re.search` from position `p` on, for a pattern whose match at the start of a text is `at`: the group of the first position where it matches. */
  function SearchFrom(s: string, p: nat, at: string -> Option<string>): Option<string>
    requires p <= |s|
    decreases |s| - p
  {
    if at(s[p..]).Some? then at(s[p..])
    else if p == |s| then None
    else SearchFrom(s, p + 1, at)
  }

  /** The position the search stops at: nothing matches before it, and it gives the group found. */
  lemma {:induction false} SearchFromAt(s: string, p: nat, at: string -> Option<string>) returns (q: nat)
    requires p <= |s|
    ensures SearchFrom(s, p, at).None? ==> forall k :: p <= k <= |s| ==> at(s[k..]).None?
    ensures SearchFrom(s, p, at).Some? ==> p <= q <= |s| && at(s[q..]) == SearchFrom(s, p, at)
    ensures SearchFrom(s, p, at).Some? ==> forall k :: p <= k < q ==> at(s[k..]).None?
    decreases |s| - p
  {
    q := p;
    if at(s[p..]).None? && p < |s| {
      q := SearchFromAt(s, p + 1, at);
    }
  }

  /** `re.search(r'前10占比(\d+\.?\d*)%', s)` from position `p` on. */
  function Top10Search(s: string, p: nat): Option<string>
    requires p <= |s|
  {
    SearchFrom(s, p, Top10At)
  }

  /** The position the search stops at: nothing matches before it, and it gives the group found. */
  lemma Top10SearchAt(s: string, p: nat) returns (q: nat)
    requires p <= |s|
    ensures Top10Search(s, p).None? ==> forall k :: p <= k <= |s| ==> Top10At(s[k..]).None?
    ensures Top10Search(s, p).Some? ==> p <= q <= |s| && Top10At(s[q..]) == Top10Search(s, p)
    ensures Top10Search(s, p).Some? ==> forall k :: p <= k < q ==> Top10At(s[k..]).None?
  {
    q := SearchFromAt(s, p, Top10At);
  }

  function Top10Capture(s: string): Option<string> {
    Top10Search(s, 0)
  }

  /** `float(percentage_match.group(1))`, or `None` when the label text has no such match. */
  function Top10Share(info: string): Option<real> {
    match Top10Capture(info)
    case None => None
    case Some(g) => ParseFloat(g)
  }

  /** A label without `前10占比` has no share; a share that is found is never negative. */
  lemma Top10ShareBounds(info: string)
    ensures !Contains(info, Top10Label) ==> Top10Share(info).None?
    ensures Top10Share(info).Some? ==> Top10Share(info).value >= 0.0
  {
    var p := Top10SearchAt(info, 0);
    if Top10Capture(info).Some? {
      assert info[p..][..|Top10Label|] == info[p..p + |Top10Label|];
      assert MatchAt(info, Top10Label, p);
      ContainsAt(info, Top10Label, p);
      NumCharsNonNegative(Top10Capture(info).value);
    }
  }

  /** The search skips a prefix in which the label cannot start. */
  lemma {:induction false} SearchSkips(pre: string, rest: string, q: nat)
    requires '前' !in pre && q <= |pre| && Top10At(rest).Some?
    ensures Top10Search(pre + rest, q) == Top10At(rest)
    decreases |pre| - q
  {
    var s := pre + rest;
    if q == |pre| {
      assert s[q..] == rest;
    } else {
      var t := s[q..];
      assert t[0] == pre[q] && pre[q] in pre;
      NoLabelHere(t);
      SearchSkips(pre, rest, q + 1);
    }
  }

  /** Text that does not start with '前' does not start a match. */
  lemma NoLabelHere(t: string)
    requires t == [] || t[0] != '前'
    ensures Top10At(t).None?
  {
    assert Top10Label[0] == '前';
  }

  /** Digits, a '.', digits and a '%' after the label form a match whose group is the number. */
  lemma Top10AtPointed(whole: string, frac: string, post: string)
    requires |whole| > 0 && AllDigits(whole) && AllDigits(frac)
    ensures Top10At(Top10Label + (whole + "." + frac) + "%" + post) == Some(whole + "." + frac)
  {
    var rest := whole + ("." + frac + "%" + post);
    PointedConcat(whole, frac, post);
    PointedWhole(whole, frac, post);
    PointedFraction(whole, frac, post);
    PointedNumber(whole, frac, post);
    LabelSplit(rest);
    Top10AtRuns(Top10Label + rest, |whole|, |frac|);
  }

  /** The label and the text after it, regrouped. */
  lemma PointedConcat(whole: string, frac: string, post: string)
    ensures Top10Label + (whole + "." + frac) + "%" + post == Top10Label + (whole + ("." + frac + "%" + post))
  {
  }

  /** The whole digits end at the '.'. */
  lemma PointedWhole(whole: string, frac: string, post: string)
    requires |whole| > 0 && AllDigits(whole)
    ensures var rest := whole + ("." + frac + "%" + post);
      |whole| < |rest| && DigitRun(rest) == |whole| && rest[|whole|] == '.'
  {
    DigitRunOf(whole, "." + frac + "%" + post);
  }

  /** The fraction digits end at the '%'. */
  lemma PointedFraction(whole: string, frac: string, post: string)
    requires AllDigits(frac)
    ensures var rest := whole + ("." + frac + "%" + post); var d1 := |whole|;
      DigitRun(rest[d1 + 1..]) == |frac| && d1 + 1 + |frac| < |rest| && rest[d1 + 1 + |frac|] == '%'
  {
    var rest := whole + ("." + frac + "%" + post);
    assert rest[|whole| + 1..] == frac + ("%" + post);
    DigitRunOf(frac, "%" + post);
  }

  /** What comes before the '%' is the number as written. */
  lemma PointedNumber(whole: string, frac: string, post: string)
    ensures var rest := whole + ("." + frac + "%" + post);
      |whole| + 1 + |frac| <= |rest| && rest[..|whole| + 1 + |frac|] == whole + "." + frac
  {
    var rest := whole + ("." + frac + "%" + post);
    assert rest[..|whole| + 1 + |frac|] == whole + "." + frac;
  }

  /** The text after the label is what followed it. */
  lemma LabelSplit(rest: string)
    ensures StartsWith(Top10Label + rest, Top10Label) && (Top10Label + rest)[|Top10Label|..] == rest
  {
    var s := Top10Label + rest;
    assert s[..|Top10Label|] == Top10Label;
  }

  /** The pointed branch of the match: digits, '.', digits and '%' right after the label. */
  lemma Top10AtRuns(s: string, d1: nat, d2: nat)
    requires StartsWith(s, Top10Label)
    requires var t := s[|Top10Label|..];
      0 < d1 < |t| && DigitRun(t) == d1 && t[d1] == '.' &&
      DigitRun(t[d1 + 1..]) == d2 && d1 + 1 + d2 < |t| && t[d1 + 1 + d2] == '%'
    ensures Top10At(s) == Some(s[|Top10Label|..][..d1 + 1 + d2])
  {
  }

  /** The share read from a label in which the first match is right after `pre`. */
  lemma Top10ShareAfter(pre: string, g: string, post: string)
    requires '前' !in pre && Top10At(Top10Label + g + "%" + post) == Some(g)
    ensures Top10Share(pre + Top10Label + g + "%" + post) == ParseFloat(g)
  {
    var rest := Top10Label + g + "%" + post;
    var s := pre + rest;
    assert pre + Top10Label + g + "%" + post == s;
    SearchSkips(pre, rest, 0);
    assert Top10Capture(s) == Some(g);
  }

  /** A share written with two decimals after the label reads back as that share rounded to two decimals. */
  lemma Top10ShareReadsBack(pre: string, x: real, post: string)
    requires '前' !in pre && x >= 0.0
    ensures Top10Share(pre + Top10Label + Fmt2(x) + "%" + post) == Some(Round2(x))
  {
    var m := Hundredths(x);
    var whole := NatToString(m / 100);
    var frac := [Digit(m % 100 / 10), Digit(m % 10)];
    assert Fmt2(x) == whole + "." + frac;
    Top10AtPointed(whole, frac, post);
    Top10ShareAfter(pre, Fmt2(x), post);
    Fmt2RoundTrip(x);
  }

  /* ---- find_similar_index ---- */

  /** One style factor of a fund: its 基金值 and its 同类平均, copied through as they are. */
  datatype FactorValue = FactorValue(value: real, average: JValue)

  /** A fund of `fund_data.json`: its 基金名称 if present and its 风格因子 in key order (absent meaning none). */
  datatype FundEntry = FundEntry(name: Option<string>, factors: seq<(string, FactorValue)>)

  /** An index of `fund_style_factors.json`: its 基金名称 if present and the 基金值 of each of its factors. */
  datatype IndexEntry = IndexEntry(name: Option<string>, factors: map<string, real>)

  /** The entries of a dictionary, in key order: no key twice. */
  predicate UniqueKeys<V>(s: seq<(string, V)>) {
    forall i, j :: 0 <= i < j < |s| ==> s[i].0 != s[j].0
  }

  /** A matched factor of the result: the fund's two values and the name of the nearest index. */
  datatype Matched = Matched(value: real, average: JValue, index: string)

  /** `result[fund_code]`. */
  datatype Similar = Similar(name: string, factors: map<string, Matched>)

  function Abs(x: real): (r: real)
    ensures r >= 0.0 && (r == x || r == -x)
  {
    if x < 0.0 then -x else x
  }

  const MetadataKey: string := "_metadata"

  function FundName(code: string, f: FundEntry): string {
    if f.name.Some? then f.name.value else "基金(" + code + ")"
  }

  function IndexName(code: string, e: IndexEntry): string {
    if e.name.Some? then e.name.value else "指数(" + code + ")"
  }

  /** An index entry takes part in matching `factor`: it is not the metadata entry and has the factor. */
  predicate Has(e: (string, IndexEntry), factor: string) {
    e.0 != MetadataKey && factor in e.1.factors
  }

  /** The absolute difference between the fund's value and the index's 基金值 of the factor. */
  function Gap(e: (string, IndexEntry), factor: string, v: real): real
    requires Has(e, factor)
  {
    Abs(v - e.1.factors[factor])
  }

  /** `min_differences[factor_name]`: (index name, absolute difference) per index having the factor, in index order. */
  function Differences(indices: seq<(string, IndexEntry)>, factor: string, v: real): (r: seq<(string, real)>)
    ensures |r| <= |indices|
  {
    if indices == [] then []
    else
      var e := indices[|indices| - 1];
      Differences(indices[..|indices| - 1], factor, v) + (if Has(e, factor) then [(IndexName(e.0, e.1), Gap(e, factor, v))] else [])
  }

  /** The position `min` picks: the first of the smallest differences. */
  function FirstMin(ds: seq<(string, real)>): (k: nat)
    requires ds != []
    ensures k < |ds|
    ensures forall j :: 0 <= j < |ds| ==> ds[k].1 <= ds[j].1
    ensures forall j :: 0 <= j < k ==> ds[j].1 > ds[k].1
  {
    if |ds| == 1 then 0
    else
      var k := FirstMin(ds[..|ds| - 1]);
      if ds[|ds| - 1].1 < ds[k].1 then |ds| - 1 else k
  }

  /** The name of the nearest index for one factor value, `None` when no index has the factor. */
  function Closest(indices: seq<(string, IndexEntry)>, factor: string, v: real): (r: Option<string>)
    ensures r.None? <==> forall j :: 0 <= j < |indices| ==> !Has(indices[j], factor)
  {
    DifferencesEmpty(indices, factor, v);
    var ds := Differences(indices, factor, v);
    if ds == [] then None else Some(ds[FirstMin(ds)].0)
  }

  /** Index `i` is the one `min` settles on: nearest of all, and strictly nearer than every earlier candidate. */
  ghost predicate IsNearest(indices: seq<(string, IndexEntry)>, i: int, factor: string, v: real) {
    0 <= i < |indices| && Has(indices[i], factor)
    && (forall j :: 0 <= j < |indices| && Has(indices[j], factor) ==> Gap(indices[i], factor, v) <= Gap(indices[j], factor, v))
    && (forall j :: 0 <= j < i && Has(indices[j], factor) ==> Gap(indices[j], factor, v) > Gap(indices[i], factor, v))
  }

  /** The nearest of the earlier indices stays nearest when the last one is not strictly nearer. */
  lemma NearestKept(indices: seq<(string, IndexEntry)>, i: int, factor: string, v: real)
    requires indices != [] && IsNearest(indices[..|indices| - 1], i, factor, v)
    requires Has(indices[|indices| - 1], factor) ==> Gap(indices[|indices| - 1], factor, v) >= Gap(indices[i], factor, v)
    ensures IsNearest(indices, i, factor, v)
  {
    var n := |indices| - 1;
    assert forall j :: 0 <= j < n ==> indices[..n][j] == indices[j];
  }

  /** The last index is nearest when it is strictly nearer than every earlier candidate. */
  lemma NearestLast(indices: seq<(string, IndexEntry)>, factor: string, v: real)
    requires indices != [] && Has(indices[|indices| - 1], factor)
    requires forall j :: 0 <= j < |indices| - 1 && Has(indices[j], factor) ==>
      Gap(indices[j], factor, v) > Gap(indices[|indices| - 1], factor, v)
    ensures IsNearest(indices, |indices| - 1, factor, v)
  {
  }

  /** No index has the factor exactly when there is nothing to compare. */
  lemma {:induction false} DifferencesEmpty(indices: seq<(string, IndexEntry)>, factor: string, v: real)
    ensures Differences(indices, factor, v) == [] <==> forall j :: 0 <= j < |indices| ==> !Has(indices[j], factor)
  {
    if indices != [] {
      var n := |indices| - 1;
      DifferencesEmpty(indices[..n], factor, v);
      assert forall j :: 0 <= j < n ==> indices[..n][j] == indices[j];
    }
  }

  /**
   * When some index has the factor, the match is the name of the index `min`
   * settles on, so ties go to the first in iteration order.
   */
  lemma {:induction false} ClosestWitness(indices: seq<(string, IndexEntry)>, factor: string, v: real) returns (i: int)
    requires Differences(indices, factor, v) != []
    ensures IsNearest(indices, i, factor, v)
    ensures Closest(indices, factor, v) == Some(IndexName(indices[i].0, indices[i].1))
    ensures Differences(indices, factor, v)[FirstMin(Differences(indices, factor, v))].1 == Gap(indices[i], factor, v)
    decreases |indices|
  {
    var n := |indices| - 1;
    var init := indices[..n];
    var ds' := Differences(init, factor, v);
    var ds := Differences(indices, factor, v);
    var e := indices[n];
    assert forall j :: 0 <= j < n ==> init[j] == indices[j];
    if !Has(e, factor) {
      assert ds == ds';
      i := ClosestWitness(init, factor, v);
      NearestKept(indices, i, factor, v);
    } else {
      var last := (IndexName(e.0, e.1), Gap(e, factor, v));
      assert ds == ds' + [last];
      assert ds[..|ds| - 1] == ds';
      if ds' == [] {
        DifferencesEmpty(init, factor, v);
        NearestLast(indices, factor, v);
        i := n;
      } else {
        var i' := ClosestWitness(init, factor, v);
        if last.1 < ds'[FirstMin(ds')].1 {
          NearestLast(indices, factor, v);
          i := n;
        } else {
          NearestKept(indices, i', factor, v);
          i := i';
        }
      }
    }
  }

  /** `find_similar_index`'s choice for one factor, in terms of the indices. */
  lemma ClosestMeaning(indices: seq<(string, IndexEntry)>, factor: string, v: real)
    ensures Closest(indices, factor, v).None? <==> forall j :: 0 <= j < |indices| ==> !Has(indices[j], factor)
    ensures Closest(indices, factor, v).Some? ==>
      exists i :: IsNearest(indices, i, factor, v) && Closest(indices, factor, v).value == IndexName(indices[i].0, indices[i].1)
  {
    DifferencesEmpty(indices, factor, v);
    if Differences(indices, factor, v) != [] {
      var i := ClosestWitness(indices, factor, v);
    }
  }

  /** `result[fund_code]["风格因子"]`: the factors some index has, each with the fund's values and the nearest index. */
  function MatchFactors(fs: seq<(string, FactorValue)>, indices: seq<(string, IndexEntry)>): map<string, Matched> {
    if fs == [] then map[]
    else
      var n := |fs| - 1;
      var m := MatchFactors(fs[..n], indices);
      match Closest(indices, fs[n].0, fs[n].1.value)
      case None => m
      case Some(name) => m[fs[n].0 := Matched(fs[n].1.value, fs[n].1.average, name)]
  }

  function FundResult(code: string, f: FundEntry, indices: seq<(string, IndexEntry)>): Similar {
    Similar(FundName(code, f), MatchFactors(f.factors, indices))
  }

  /** What `find_similar_index` returns: one entry per fund apart from the metadata. */
  function SimilarAll(funds: seq<(string, FundEntry)>, indices: seq<(string, IndexEntry)>): (r: map<string, Similar>)
    ensures MetadataKey !in r
  {
    if funds == [] then map[]
    else
      var n := |funds| - 1;
      var r := SimilarAll(funds[..n], indices);
      if funds[n].0 == MetadataKey then r else r[funds[n].0 := FundResult(funds[n].0, funds[n].1, indices)]
  }

  /** The first loops of `find_similar_index`: the differences of one factor against every index. */
  method ComputeDifferences(indices: seq<(string, IndexEntry)>, factor: string, v: real) returns (ds: seq<(string, real)>)
    ensures ds == Differences(indices, factor, v)
  {
    ds := [];
    for j := 0 to |indices|
      invariant ds == Differences(indices[..j], factor, v)
    {
      assert indices[..j + 1][..j] == indices[..j];
      var (code, info) := indices[j];
      if code != MetadataKey && factor in info.factors {
        ds := ds + [(IndexName(code, info), Abs(v - info.factors[factor]))];
      }
    }
    assert indices[..|indices|] == indices;
  }

  /** The per-fund part: `min_differences` filled for every factor, then the nearest index of each. */
  method MatchFund(fs: seq<(string, FactorValue)>, indices: seq<(string, IndexEntry)>) returns (matched: map<string, Matched>)
    ensures matched == MatchFactors(fs, indices)
  {
    var mins: seq<seq<(string, real)>> := [];
    for k := 0 to |fs|
      invariant |mins| == k
      invariant forall t :: 0 <= t < k ==> mins[t] == Differences(indices, fs[t].0, fs[t].1.value)
    {
      var ds := ComputeDifferences(indices, fs[k].0, fs[k].1.value);
      mins := mins + [ds];
    }
    matched := map[];
    for k := 0 to |fs|
      invariant matched == MatchFactors(fs[..k], indices)
    {
      assert fs[..k + 1][..k] == fs[..k];
      if mins[k] != [] {
        matched := matched[fs[k].0 := Matched(fs[k].1.value, fs[k].1.average, mins[k][FirstMin(mins[k])].0)];
      }
    }
    assert fs[..|fs|] == fs;
  }

  /** `find_similar_index` on the two decoded files, given as their entries in key order. */
  method FindSimilarIndex(funds: seq<(string, FundEntry)>, indices: seq<(string, IndexEntry)>) returns (result: map<string, Similar>)
    ensures result == SimilarAll(funds, indices)
  {
    result := map[];
    for n := 0 to |funds|
      invariant result == SimilarAll(funds[..n], indices)
    {
      assert funds[..n + 1][..n] == funds[..n];
      var (code, info) := funds[n];
      if code != MetadataKey {
        var matched := MatchFund(info.factors, indices);
        result := result[code := Similar(FundName(code, info), matched)];
      }
    }
    assert funds[..|funds|] == funds;
  }

  /** Every fund appears in the result, and nothing else does. */
  lemma {:induction false} SimilarKeys(funds: seq<(string, FundEntry)>, indices: seq<(string, IndexEntry)>)
    ensures SimilarAll(funds, indices).Keys == set i | 0 <= i < |funds| && funds[i].0 != MetadataKey :: funds[i].0
  {
    if funds != [] {
      var n := |funds| - 1;
      var init := funds[..n];
      SimilarKeys(init, indices);
      assert forall i :: 0 <= i < n ==> init[i] == funds[i];
      var before := set i | 0 <= i < n && init[i].0 != MetadataKey :: init[i].0;
      var after := set i | 0 <= i < |funds| && funds[i].0 != MetadataKey :: funds[i].0;
      var last: set<string> := if funds[n].0 == MetadataKey then {} else {funds[n].0};
      forall c | c in after
        ensures c in before + last
      {
        var i :| 0 <= i < |funds| && funds[i].0 != MetadataKey && funds[i].0 == c;
        if i < n {
          assert init[i].0 == c;
        }
      }
      assert after == before + last;
    }
  }

  /** Each fund's entry is computed from that fund alone (the codes being the keys of a dictionary). */
  lemma {:induction false} SimilarEntry(funds: seq<(string, FundEntry)>, indices: seq<(string, IndexEntry)>, i: int)
    requires UniqueKeys(funds)
    requires 0 <= i < |funds| && funds[i].0 != MetadataKey
    ensures funds[i].0 in SimilarAll(funds, indices)
    ensures SimilarAll(funds, indices)[funds[i].0] == FundResult(funds[i].0, funds[i].1, indices)
    decreases |funds|
  {
    var n := |funds| - 1;
    if i < n {
      assert funds[i].0 != funds[n].0;
      assert UniqueKeys(funds[..n]);
      SimilarEntry(funds[..n], indices, i);
    }
  }

  /**
   * The factors of a fund's entry are exactly those of its factors that some
   * index has; each keeps the fund's 基金值 and 同类平均 and names the
   * nearest index.
   */
  lemma {:induction false} MatchFactorsMeaning(fs: seq<(string, FactorValue)>, indices: seq<(string, IndexEntry)>, k: int)
    requires UniqueKeys(fs)
    requires 0 <= k < |fs|
    ensures fs[k].0 in MatchFactors(fs, indices) <==> Closest(indices, fs[k].0, fs[k].1.value).Some?
    ensures fs[k].0 in MatchFactors(fs, indices) ==>
      MatchFactors(fs, indices)[fs[k].0] == Matched(fs[k].1.value, fs[k].1.average, Closest(indices, fs[k].0, fs[k].1.value).value)
    decreases |fs|
  {
    var n := |fs| - 1;
    if k < n {
      assert UniqueKeys(fs[..n]);
      assert fs[..n][k] == fs[k];
      MatchFactorsMeaning(fs[..n], indices, k);
      MatchFactorsOther(fs, indices, fs[k].0);
    } else {
      assert forall j :: 0 <= j < n ==> fs[..n][j].0 != fs[n].0;
      MatchFactorsAbsent(fs[..n], indices, fs[n].0);
    }
  }

  /** The last factor settles only its own key. */
  lemma MatchFactorsOther(fs: seq<(string, FactorValue)>, indices: seq<(string, IndexEntry)>, f: string)
    requires fs != [] && f != fs[|fs| - 1].0
    ensures (f in MatchFactors(fs, indices)) == (f in MatchFactors(fs[..|fs| - 1], indices))
    ensures f in MatchFactors(fs, indices) ==> MatchFactors(fs, indices)[f] == MatchFactors(fs[..|fs| - 1], indices)[f]
  {
  }

  /** A factor the fund does not list is not in its entry. */
  lemma {:induction false} MatchFactorsAbsent(fs: seq<(string, FactorValue)>, indices: seq<(string, IndexEntry)>, f: string)
    requires forall j :: 0 <= j < |fs| ==> fs[j].0 != f
    ensures f !in MatchFactors(fs, indices)
  {
    if fs != [] {
      var n := |fs| - 1;
      assert forall j :: 0 <= j < n ==> fs[..n][j] == fs[j];
      MatchFactorsAbsent(fs[..n], indices, f);
    }
  }

  /** No factor enters an entry unless the fund has it. */
  lemma {:induction false} MatchFactorsKeys(fs: seq<(string, FactorValue)>, indices: seq<(string, IndexEntry)>)
    ensures forall f :: f in MatchFactors(fs, indices) ==> exists k :: 0 <= k < |fs| && fs[k].0 == f
  {
    if fs != [] {
      var n := |fs| - 1;
      MatchFactorsKeys(fs[..n], indices);
      forall f | f in MatchFactors(fs, indices) ensures exists k :: 0 <= k < |fs| && fs[k].0 == f {
        if f != fs[n].0 {
          assert f in MatchFactors(fs[..n], indices);
          var k :| 0 <= k < n && fs[..n][k].0 == f;
          assert fs[k].0 == f;
        }
      }
    }
  }
}
