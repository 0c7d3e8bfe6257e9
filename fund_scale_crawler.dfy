/**
 * The result shaping of `crawl_fund_scale_data` (`fund_scale_crawler.py`,
 * repeated verbatim in `fund_data_processor.py`): the `"data": [...]`
 * array is cut out of the reply, every record becomes a date and a net
 * asset value in units of 10^8, and the newest five records are kept.
 * The HTTP request is the `response` outcome and `json.loads` the `loads`
 * parameter.
 */
module FundScaleCrawler {
  import opened Common
  import opened Json
  import opened Decimal
  import opened Sorting

  /** `{'日期': FSRQ, '期末净资产': NETNAV / 1e8 or None}` */
  datatype ScaleEntry = ScaleEntry(date: string, netAsset: Option<real>)

  /** The `status` of the returned dictionary, with its data when it is 'success'. */
  datatype CrawlResult<T> = Success(data: seq<T>) | Failed | Errored

  /** The length of the longest prefix of `s` made of whitespace (`\s*`). */
  function SpaceRun(s: string): (n: nat)
    ensures n <= |s|
    ensures forall i :: 0 <= i < n ==> IsSpace(s[i])
    ensures n < |s| ==> !IsSpace(s[n])
  {
    if s != [] && IsSpace(s[0]) then 1 + SpaceRun(s[1..]) else 0
  }

  /** The group of `"data":\s*(\[[^\]]*\])` tried at the very start of `t`. */
  function CaptureHere(t: string): (r: Option<string>)
    ensures r.Some? ==> |r.value| >= 2 && r.value[0] == '[' && r.value[|r.value| - 1] == ']' && ']' !in r.value[1..|r.value| - 1]
    ensures r.Some? ==> Contains(t, r.value)
  {
    if !StartsWith(t, "\"data\":") then None
    else
      var rest := t[7..];
      var k := SpaceRun(rest);
      if k < |rest| && rest[k] == '[' then
        var body := BeforeFirst(rest[k + 1..], ']');
        if |body| < |rest[k + 1..]| then
          var c := rest[k..k + |body| + 2];
          BracketCapture(t, rest, k, body, c);
          Some(c)
        else None
      else None
  }

  /** A '[' after the key, then up to the first ']': the brackets and what they hold, found in the text. */
  lemma BracketCapture(t: string, rest: string, k: nat, body: string, c: string)
    requires |t| >= 7 && rest == t[7..] && k < |rest| && rest[k] == '['
    requires body == BeforeFirst(rest[k + 1..], ']') && |body| < |rest[k + 1..]|
    requires c == rest[k..k + |body| + 2]
    ensures |c| >= 2 && c[0] == '[' && c[|c| - 1] == ']' && ']' !in c[1..|c| - 1]
    ensures Contains(t, c)
  {
    BracketShape(rest, k, body, c);
    assert MatchAt(t, c, 7 + k) by {
      assert forall i :: 0 <= i < |c| ==> t[7 + k..7 + k + |c|][i] == c[i];
    }
    ContainsAt(t, c, 7 + k);
  }

  lemma BracketShape(rest: string, k: nat, body: string, c: string)
    requires k < |rest| && rest[k] == '['
    requires body == BeforeFirst(rest[k + 1..], ']') && |body| < |rest[k + 1..]|
    requires c == rest[k..k + |body| + 2]
    ensures |c| == |body| + 2 && c[0] == '[' && c[|c| - 1] == ']' && c[1..|c| - 1] == body
  {
    var s := rest[k + 1..];
    assert s[..|body|] == body && s[|body|] == ']';
    assert forall i :: 0 <= i < |body| ==> c[1..|c| - 1][i] == s[i];
  }

  /** `re.search(r'"data":\s*(\[[^\]]*\])', text)`: the capture at the leftmost position that matches. */
  function DataCapture(t: string): (r: Option<string>)
    ensures r.Some? ==> |r.value| >= 2 && r.value[0] == '[' && r.value[|r.value| - 1] == ']' && ']' !in r.value[1..|r.value| - 1]
    ensures r.Some? ==> Contains(t, r.value)
    ensures r.None? ==> forall i :: 0 <= i <= |t| ==> CaptureHere(t[i..]).None?
    decreases |t|
  {
    if CaptureHere(t).Some? then CaptureHere(t)
    else if t == [] then None
    else
      var r := DataCapture(t[1..]);
      CaptureShift(t, r);
      r
  }

  /** What `DataCapture` promises of the tail carries over to the whole text. */
  lemma CaptureShift(t: string, r: Option<string>)
    requires t != []
    requires r.Some? ==> Contains(t[1..], r.value)
    requires r.None? ==> forall i :: 0 <= i <= |t[1..]| ==> CaptureHere(t[1..][i..]).None?
    requires CaptureHere(t).None?
    ensures r.Some? ==> Contains(t, r.value)
    ensures r.None? ==> forall i :: 0 <= i <= |t| ==> CaptureHere(t[i..]).None?
  {
    if r.Some? {
      ContainsIff(t[1..], r.value);
      var j :| MatchAt(t[1..], r.value, j);
      assert t[j + 1..j + 1 + |r.value|] == t[1..][j..j + |r.value|];
      ContainsAt(t, r.value, j + 1);
    } else {
      forall i | 1 <= i <= |t| ensures CaptureHere(t[i..]).None? {
        assert t[i..] == t[1..][i - 1..];
      }
      assert t[0..] == t;
    }
  }

  /** The date key the records are sorted by. */
  function DateKey(e: ScaleEntry): string { e.date }

  /**
   * One record of the comprehension: `item.get('FSRQ', '')` and, when
   * `item.get('NETNAV')` is truthy, `round(NETNAV / 100000000, 2)`. `None`
   * when the division raises (a non-numeric NETNAV) or the date is not a
   * string.
   */
  function Entry(item: map<string, JValue>): (r: Option<ScaleEntry>)
    ensures r.Some? ==> (r.value.netAsset.None? <==> !Truthy(Get(item, "NETNAV", JNull)))
    ensures r.Some? && "NETNAV" in item && item["NETNAV"].JNum? && item["NETNAV"].n != 0.0 ==>
      r.value.netAsset == Some(Round2(item["NETNAV"].n / 100000000.0))
  {
    var date := Get(item, "FSRQ", JStr(""));
    var nav := Get(item, "NETNAV", JNull);
    if !date.JStr? then None
    else if !Truthy(nav) then Some(ScaleEntry(date.s, None))
    else match nav
      case JNum(n) => Some(ScaleEntry(date.s, Some(Round2(n / 100000000.0))))
      case JBool(_) => Some(ScaleEntry(date.s, Some(Round2(1.0 / 100000000.0))))
      case _ => None
  }

  function Entries(items: seq<map<string, JValue>>): (r: Option<seq<ScaleEntry>>)
    ensures r.Some? ==> |r.value| == |items| && forall k :: 0 <= k < |items| ==> Entry(items[k]) == Some(r.value[k])
    ensures r.None? ==> exists k :: 0 <= k < |items| && Entry(items[k]).None?
  {
    if items == [] then Some([])
    else match (Entry(items[0]), Entries(items[1..]))
      case (Some(e), Some(rest)) => Some([e] + rest)
      case (None, _) => None
      case (_, None) =>
        var k :| 0 <= k < |items[1..]| && Entry(items[1..][k]).None?;
        assert Entry(items[k + 1]).None?;
        None
  }

  /** `sort(key=日期, reverse=True)` then `[:5]`. */
  function Newest5(entries: seq<ScaleEntry>): seq<ScaleEntry> {
    Newest(entries, DateKey, 5)
  }

  /** `crawl_fund_scale_data`'s status and data, given the reply (or the exception) of the request. */
  function Crawl(response: Outcome<string>, loads: string -> Option<JValue>): (r: CrawlResult<ScaleEntry>)
    ensures response.Raised? ==> r == Errored
    ensures response.Returned? && DataCapture(response.value).None? ==> r == Failed
    ensures r.Success? ==> 1 <= |r.data| <= 5 && SortedDesc(r.data, DateKey)
  {
    match response
    case Raised => Errored
    case Returned(text) =>
      match DataCapture(text)
      case None => Failed
      case Some(c) =>
        match loads(c)
        case None => Errored
        case Some(data) =>
          if !Truthy(data) then Failed
          else match IterDicts(data)
            case None => Errored
            case Some(items) =>
              match Entries(items)
              case None => Errored
              case Some(es) =>
                NewestShape(es, DateKey, 5);
                if items == [] then Failed else Success(Newest5(es))
  }

  /** A successful crawl holds the newest five records of the array, each as `Entry` made it. */
  lemma CrawlSuccess(text: string, loads: string -> Option<JValue>)
    requires Crawl(Returned(text), loads).Success?
    ensures var c := DataCapture(text).value;
      loads(c).Some? && loads(c).value.JArr? && |loads(c).value.items| > 0 &&
      IterDicts(loads(c).value).Some? && Entries(IterDicts(loads(c).value).value).Some? &&
      Crawl(Returned(text), loads).data == Newest5(Entries(IterDicts(loads(c).value).value).value)
  {
  }

  /** An empty array in the reply is a failure, not an empty success. */
  lemma EmptyArrayFails(text: string, loads: string -> Option<JValue>)
    requires DataCapture(text).Some? && loads(DataCapture(text).value) == Some(JArr([]))
    ensures Crawl(Returned(text), loads) == Failed
  {
  }
}
