/**
 * The fund-search reply of the fund-suggest service
 * (`fund_search_parser.py`): the reply is plain JSON or JSON wrapped in a
 * JSONP callback, carries an `ErrCode`, and lists the matching funds under
 * `Datas`. Decoding JSON text is a parameter (`loads`, `None` meaning
 * `JSONDecodeError`); the HTTP request is the `response` outcome.
 */
module FundSearchParser {
  import opened Common
  import opened Json

  /** One `{"code": CODE, "name": NAME}` entry of a successful search. */
  datatype SearchHit = SearchHit(code: JValue, name: JValue)

  /** What the search functions hand back. */
  datatype SearchReply =
    | Hits(funds: seq<SearchHit>)
      /** `{"error": True, "error_code": ErrCode, "error_message": ErrMsg}` */
    | Refused(errCode: JValue, errMsg: JValue)
      /** `{"error": True, "error_code": -1, "error_message": "请求失败: ..."}` */
    | RequestFailed

  /** The `error_code` of an error reply. */
  function ErrorCode(r: SearchReply): (c: Option<JValue>)
    ensures c.None? <==> r.Hits?
    ensures r.RequestFailed? ==> c == Some(JNum(-1.0))
  {
    match r
    case Hits(_) => None
    case Refused(code, _) => Some(code)
    case RequestFailed => Some(JNum(-1.0))
  }

  /**
   * The group of `^[^(]*\((.*)\)$` on already stripped text: everything
   * between the first '(' and a ')' that ends the text, provided no line
   * break lies between them (`.` does not match '\n').
   */
  function UnwrapJsonp(t: string): (r: Option<string>)
    ensures r.Some? ==> '\n' !in r.value && |r.value| + 2 <= |t|
    ensures r.Some? ==> t[|t| - 1] == ')' && t[|t| - |r.value| - 2] == '(' && '(' !in t[..|t| - |r.value| - 2]
    ensures r.Some? ==> t[|t| - |r.value| - 1..|t| - 1] == r.value
  {
    var pre := BeforeFirst(t, '(');
    if |pre| + 2 <= |t| && t[|t| - 1] == ')' && '\n' !in t[|pre| + 1..|t| - 1] then
      Some(t[|pre| + 1..|t| - 1])
    else None
  }

  /** The JSONP pattern matches exactly the texts `prefix(body)` with no '(' in the prefix and no line break in the body. */
  lemma UnwrapJsonpIff(t: string, b: string)
    ensures UnwrapJsonp(t) == Some(b) <==>
      (exists p :: '(' !in p && t == p + "(" + b + ")") && '\n' !in b
  {
    var pre := BeforeFirst(t, '(');
    if UnwrapJsonp(t) == Some(b) {
      assert t == pre + "(" + b + ")";
    }
    if (exists p :: '(' !in p && t == p + "(" + b + ")") && '\n' !in b {
      var p :| '(' !in p && t == p + "(" + b + ")";
      UnwrapJsonpOf(p, b);
    }
  }

  /** Wrapping a line-free body in a callback and unwrapping it gives the body back. */
  lemma UnwrapJsonpOf(p: string, b: string)
    requires '(' !in p && '\n' !in b
    ensures UnwrapJsonp(p + "(" + b + ")") == Some(b)
  {
    var t := p + "(" + b + ")";
    assert t == p + ['('] + (b + ")");
    BeforeFirstSplit(p, b + ")", '(');
    assert t[|p| + 1..|t| - 1] == b;
  }

  /**
   * The part of `parse_fund_search_response` after decoding: `ErrCode`
   * (default 0) other than 0 gives the error reply; otherwise every entry of
   * `Datas` (default `[]`) becomes one hit. `Raised` stands for the
   * `AttributeError`/`TypeError` of a reply that is not shaped as expected.
   */
  function Interpret(data: JValue): (r: Outcome<SearchReply>)
    ensures !data.JObj? ==> r.Raised?
    ensures data.JObj? && "ErrCode" !in data.fields ==> !r.Returned? || r.value.Hits?
    ensures data.JObj? && "ErrCode" in data.fields && !EqualsZero(data.fields["ErrCode"]) ==>
      r == Returned(Refused(data.fields["ErrCode"], Get(data.fields, "ErrMsg", JStr("未知错误"))))
    ensures r.Returned? && r.value.Hits? ==>
      var datas := Get(data.fields, "Datas", JArr([]));
      (datas.JArr? ==> |r.value.funds| == |datas.items|) &&
      forall i :: 0 <= i < |r.value.funds| ==>
        datas.JArr? && datas.items[i].JObj? &&
        r.value.funds[i] == SearchHit(Get(datas.items[i].fields, "CODE", JNull), Get(datas.items[i].fields, "NAME", JNull))
    ensures data.JObj? && EqualsZero(Get(data.fields, "ErrCode", JNum(0.0))) && "Datas" !in data.fields ==> r == Returned(Hits([]))
    ensures data.JObj? && EqualsZero(Get(data.fields, "ErrCode", JNum(0.0))) ==>
      (r.Raised? <==> IterDicts(Get(data.fields, "Datas", JArr([]))).None?) && (r.Returned? ==> r.value.Hits?)
    ensures data.JObj? && EqualsZero(Get(data.fields, "ErrCode", JNum(0.0))) && "Datas" in data.fields &&
            data.fields["Datas"].JArr? && (forall i :: 0 <= i < |data.fields["Datas"].items| ==> data.fields["Datas"].items[i].JObj?)
      ==> r.Returned? && r.value.Hits? && |r.value.funds| == |data.fields["Datas"].items|
  {
    if !data.JObj? then Raised
    else
      var code := Get(data.fields, "ErrCode", JNum(0.0));
      if !EqualsZero(code) then
        Returned(Refused(Get(data.fields, "ErrCode", JNull), Get(data.fields, "ErrMsg", JStr("未知错误"))))
      else
        match IterDicts(Get(data.fields, "Datas", JArr([])))
        case None => Raised
        case Some(ds) => Returned(Hits(Project(ds)))
  }

  /** The loop over `Datas`: one hit per entry, in order. */
  function Project(ds: seq<map<string, JValue>>): (r: seq<SearchHit>)
    ensures |r| == |ds|
    ensures forall i :: 0 <= i < |ds| ==> r[i] == SearchHit(Get(ds[i], "CODE", JNull), Get(ds[i], "NAME", JNull))
  {
    if ds == [] then [] else [SearchHit(Get(ds[0], "CODE", JNull), Get(ds[0], "NAME", JNull))] + Project(ds[1..])
  }

  /**
   * `parse_fund_search_response`: decode the text as JSON; failing that,
   * decode the JSONP body of the stripped text; `Raised` when there is no
   * such body (the `ValueError`) or it does not decode.
   */
  function ParseResponse(text: string, loads: string -> Option<JValue>): (r: Outcome<SearchReply>)
    ensures loads(text).Some? ==> r == Interpret(loads(text).value)
    ensures loads(text).None? && UnwrapJsonp(Strip(text)).None? ==> r.Raised?
    ensures loads(text).None? && UnwrapJsonp(Strip(text)).Some? ==>
      (loads(UnwrapJsonp(Strip(text)).value).None? ==> r.Raised?) &&
      (loads(UnwrapJsonp(Strip(text)).value).Some? ==> r == Interpret(loads(UnwrapJsonp(Strip(text)).value).value))
  {
    var data :=
      match loads(text)
      case Some(v) => Some(v)
      case None =>
        match UnwrapJsonp(Strip(text))
        case None => None
        case Some(body) => loads(body);
    match data
    case None => Raised
    case Some(v) => Interpret(v)
  }

  /** `fetch_and_parse_fund_search`: every exception becomes the error reply with code -1. */
  function FetchAndParse(response: Outcome<string>, loads: string -> Option<JValue>): (r: SearchReply)
    ensures response.Raised? ==> r == RequestFailed
    ensures response.Returned? && ParseResponse(response.value, loads).Raised? ==> r == RequestFailed
    ensures response.Returned? && ParseResponse(response.value, loads).Returned? ==> r == ParseResponse(response.value, loads).value
  {
    match response
    case Raised => RequestFailed
    case Returned(text) =>
      match ParseResponse(text, loads)
      case Raised => RequestFailed
      case Returned(reply) => reply
  }

  /** Text that is JSON already is never unwrapped. */
  lemma DirectJson(text: string, loads: string -> Option<JValue>)
    requires loads(text).Some?
    ensures ParseResponse(text, loads) == Interpret(loads(text).value)
  {
  }

  /** Text that is not JSON is read through its callback wrapper. */
  lemma JsonpFallback(text: string, p: string, b: string, loads: string -> Option<JValue>)
    requires loads(text).None?
    requires '(' !in p && '\n' !in b && Strip(text) == p + "(" + b + ")"
    ensures loads(b).None? ==> ParseResponse(text, loads).Raised?
    ensures loads(b).Some? ==> ParseResponse(text, loads) == Interpret(loads(b).value)
  {
    UnwrapJsonpOf(p, b);
  }

  /**
   * A wrapped body that spans lines is rejected, and the fetch wrapper
   * reports it as a failed request.
   */
  lemma MultiLineJsonpRejected(text: string, p: string, b: string, loads: string -> Option<JValue>)
    requires loads(text).None?
    requires Strip(text) == p + "(" + b + ")" && '\n' in b
    ensures ParseResponse(text, loads).Raised?
    ensures FetchAndParse(Returned(text), loads) == RequestFailed
  {
    var t := Strip(text);
    var pre := BeforeFirst(t, '(');
    assert t[|p|] == '(';
    assert |pre| <= |p|;
    var k :| 0 <= k < |b| && b[k] == '\n';
    assert t[|p| + 1 + k] == '\n';
    if |pre| + 2 <= |t| {
      assert t[|pre| + 1..|t| - 1][|p| + k - |pre|] == '\n';
    }
  }

  /** Text that is neither JSON nor a callback wrapper fails the fetch with code -1. */
  lemma GarbageIsRequestFailure(text: string, loads: string -> Option<JValue>)
    requires loads(text).None? && UnwrapJsonp(Strip(text)).None?
    ensures FetchAndParse(Returned(text), loads) == RequestFailed
    ensures ErrorCode(FetchAndParse(Returned(text), loads)) == Some(JNum(-1.0))
  {
  }
}
