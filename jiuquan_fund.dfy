/**
 * The fund-highlights reply of the jiucaishuo service (`jiuquan_fund.py`):
 * validation of the reply text, the walk over the "持仓特征" tags that
 * picks out the turnover figure, and the "number plus Chinese unit"
 * extractor applied to it. The HTTP call, decompression and byte decoding
 * are outside the model: the reply arrives as decoded text, or as `Raised`
 * when the request failed; `loads` decodes JSON (`None` is `JSONDecodeError`).
 */
module JiuquanFund {
  import opened Common
  import opened Json

  /** The unit characters of the extractor's `[%万亿亿千万百十]`. */
  predicate IsUnit(c: char) {
    c == '%' || c == '万' || c == '亿' || c == '千' || c == '百' || c == '十'
  }

  /** The length of the longest prefix of `s` made of unit characters. */
  function UnitRun(s: string): (n: nat)
    ensures n <= |s| && (forall i :: 0 <= i < n ==> IsUnit(s[i])) && (n < |s| ==> !IsUnit(s[n]))
  {
    if s != [] && IsUnit(s[0]) then 1 + UnitRun(s[1..]) else 0
  }

  /** The index of the first digit of `s`, or `|s|` if there is none. */
  function FirstDigit(s: string): (i: nat)
    ensures i <= |s| && (forall k :: 0 <= k < i ==> !IsDigit(s[k])) && (i < |s| ==> IsDigit(s[i]))
  {
    if s == [] || IsDigit(s[0]) then 0 else 1 + FirstDigit(s[1..])
  }

  /** The length of the leftmost match of `\d+(?:\.\d+)?(?:[%万亿千百十])*` at the start of `t`. */
  function NumberLength(t: string): (n: nat)
    requires t != [] && IsDigit(t[0])
    ensures 0 < n <= |t|
  {
    var d := DigitRun(t);
    var f := if d + 1 < |t| && t[d] == '.' && IsDigit(t[d + 1]) then 1 + DigitRun(t[d + 1..]) else 0;
    d + f + UnitRun(t[d + f..])
  }

  /**
   * The shape of a match of `\d+(?:\.\d+)?(?:[%万亿千百十])*`: it starts with a
   * digit, holds digits, at most one '.' (between two digits) and unit
   * characters, and the units come last.
   */
  predicate NumberShaped(r: string) {
    |r| > 0 && IsDigit(r[0]) &&
    (forall k :: 0 <= k < |r| ==> IsDigit(r[k]) || r[k] == '.' || IsUnit(r[k])) &&
    (forall k :: 0 <= k < |r| && r[k] == '.' ==> 0 < k && k + 1 < |r| && IsDigit(r[k - 1]) && IsDigit(r[k + 1])) &&
    (forall k, k' :: 0 <= k < k' < |r| && r[k] == '.' ==> r[k'] != '.') &&
    (forall k, k' :: 0 <= k < k' < |r| && IsUnit(r[k]) ==> IsUnit(r[k']))
  }

  /**
   * The prefix `t[..n]` cannot be extended by the greedy pattern: the whole
   * part is followed by no digit, a whole part alone is followed by no '.'
   * and digit, a fraction is followed by no digit, and the units by no unit.
   */
  predicate Greedy(t: string, n: nat)
    requires n <= |t|
  {
    var d := DigitRun(t[..n]);
    (d < |t| ==> !IsDigit(t[d])) &&
    (!(d < n && t[d] == '.') ==> !(d + 1 < |t| && t[d] == '.' && IsDigit(t[d + 1]))) &&
    (d < n && t[d] == '.' ==> var e := d + 1 + DigitRun(t[d + 1..n]); e < |t| ==> !IsDigit(t[e])) &&
    (n < |t| ==> !IsUnit(t[n]))
  }

  /**
   * `extract_numeric_value` on a string: the first match of the pattern,
   * which starts at the first digit, or the text itself when it holds no digit.
   */
  function ExtractNumeric(s: string): (r: string)
    ensures FirstDigit(s) == |s| ==> r == s
    ensures FirstDigit(s) < |s| ==>
      FirstDigit(s) + |r| <= |s| && r == s[FirstDigit(s)..FirstDigit(s) + |r|] && NumberShaped(r) &&
      (FirstDigit(s) + |r| < |s| ==> !IsUnit(s[FirstDigit(s) + |r|])) &&
      Greedy(s[FirstDigit(s)..], |r|)
  {
    var i := FirstDigit(s);
    if i == |s| then s
    else
      var t := s[i..];
      NumberLengthShape(t);
      t[..NumberLength(t)]
  }

  /** Digits, then optionally '.' and more digits, then units: the shape of a match. */
  lemma ShapedFromParts(r: string, d: nat, f: nat)
    requires 0 < d && d + f <= |r|
    requires forall k :: 0 <= k < d ==> IsDigit(r[k])
    requires f > 0 ==> f >= 2 && r[d] == '.' && forall k :: d < k < d + f ==> IsDigit(r[k])
    requires forall k :: d + f <= k < |r| ==> IsUnit(r[k])
    ensures NumberShaped(r)
  {
    assert forall k :: 0 <= k < |r| && (r[k] == '.' || IsUnit(r[k])) ==> (k == d && f > 0) || d + f <= k;
    assert forall k :: 0 <= k < |r| && r[k] == '.' ==> k == d && f > 0;
  }

  /** The match has the number shape and is greedy in every part. */
  lemma NumberLengthShape(t: string)
    requires t != [] && IsDigit(t[0])
    ensures NumberShaped(t[..NumberLength(t)])
    ensures NumberLength(t) < |t| ==> !IsUnit(t[NumberLength(t)])
    ensures Greedy(t, NumberLength(t))
  {
    NumberLengthShaped(t);
    NumberLengthGreedy(t);
    NumberLengthStops(t);
  }

  /** The match is digits, an optional fraction, then units. */
  lemma NumberLengthShaped(t: string)
    requires t != [] && IsDigit(t[0])
    ensures NumberShaped(t[..NumberLength(t)])
  {
    var d := DigitRun(t);
    var f := if d + 1 < |t| && t[d] == '.' && IsDigit(t[d + 1]) then 1 + DigitRun(t[d + 1..]) else 0;
    var u := UnitRun(t[d + f..]);
    var r := t[..NumberLength(t)];
    assert |r| == d + f + u;
    assert forall k :: d + f <= k < |r| ==> IsUnit(r[k]) by {
      assert forall k :: d + f <= k < |r| ==> r[k] == t[d + f..][k - (d + f)];
    }
    assert forall k :: 0 <= k < d ==> IsDigit(r[k]);
    assert f > 0 ==> f >= 2 && r[d] == '.' && forall k :: d < k < d + f ==> IsDigit(r[k]) by {
      if f > 0 {
        assert forall k :: d < k < d + f ==> r[k] == t[d + 1..][k - d - 1];
      }
    }
    ShapedFromParts(r, d, f);
  }

  /** The match ends at the end of the text or before a character that is no unit. */
  lemma NumberLengthStops(t: string)
    requires t != [] && IsDigit(t[0])
    ensures NumberLength(t) < |t| ==> !IsUnit(t[NumberLength(t)])
  {
    var d := DigitRun(t);
    var f := if d + 1 < |t| && t[d] == '.' && IsDigit(t[d + 1]) then 1 + DigitRun(t[d + 1..]) else 0;
    var u := UnitRun(t[d + f..]);
    if NumberLength(t) < |t| {
      assert t[NumberLength(t)] == t[d + f..][u];
    }
  }

  /** Each of the three runs of the match stops where the text stops matching. */
  lemma NumberLengthGreedy(t: string)
    requires t != [] && IsDigit(t[0])
    ensures Greedy(t, NumberLength(t))
  {
    var n := NumberLength(t);
    var d := DigitRun(t);
    var f := if d + 1 < |t| && t[d] == '.' && IsDigit(t[d + 1]) then 1 + DigitRun(t[d + 1..]) else 0;
    assert n == d + f + UnitRun(t[d + f..]);
    DigitRunCut(t, n);
    if f > 0 {
      FractionStops(t, n, d);
    } else if d < n {
      UnitsAfterWhole(t, d, n);
    }
    NumberLengthStops(t);
  }

  /** The fraction of the match is the whole digit run after the '.', and no digit follows it. */
  lemma FractionStops(t: string, n: nat, d: nat)
    requires d + 1 < n <= |t| && t[d] == '.'
    requires n >= d + 1 + DigitRun(t[d + 1..])
    ensures DigitRun(t[d + 1..n]) == DigitRun(t[d + 1..])
    ensures d + 1 + DigitRun(t[d + 1..n]) < |t| ==> !IsDigit(t[d + 1 + DigitRun(t[d + 1..n])])
  {
    var rest := t[d + 1..];
    assert t[d + 1..n] == rest[..n - d - 1];
    DigitRunCut(rest, n - d - 1);
    var g := DigitRun(rest);
    assert d + 1 + g < |t| ==> t[d + 1 + g] == rest[g];
  }

  /** Without a fraction, the match goes on after its digits only with units. */
  lemma UnitsAfterWhole(t: string, d: nat, n: nat)
    requires d < n <= |t| && n == d + UnitRun(t[d..])
    ensures IsUnit(t[d])
  {
    assert t[d] == t[d..][0];
  }

  /** A digit prefix of length `m` that is not followed by a digit is the digit run. */
  lemma DigitRunPrefix(t: string, m: nat)
    requires m <= |t| && (forall k :: 0 <= k < m ==> IsDigit(t[k])) && (m < |t| ==> !IsDigit(t[m]))
    ensures DigitRun(t) == m
  {
    assert t == t[..m] + t[m..];
    DigitRunOf(t[..m], t[m..]);
  }

  /** Cutting a text after its digit run, or anywhere later, keeps the digit run. */
  lemma DigitRunCut(t: string, m: nat)
    requires DigitRun(t) <= m <= |t|
    ensures DigitRun(t[..m]) == DigitRun(t)
  {
    var g := DigitRun(t);
    var c := t[..m];
    assert forall k :: 0 <= k < g ==> IsDigit(c[k]) by {
      assert forall k :: 0 <= k < g ==> c[k] == t[k];
    }
    assert g < m ==> c[g] == t[g];
    DigitRunPrefix(c, g);
  }

  /** A cut whose digit run stops short of the cut has the same digit run as the whole text. */
  lemma DigitRunUncut(t: string, m: nat)
    requires m <= |t| && (DigitRun(t[..m]) < m || m == |t| || !IsDigit(t[m]))
    ensures DigitRun(t) == DigitRun(t[..m])
  {
    var c := t[..m];
    var g := DigitRun(c);
    assert forall k :: 0 <= k < g ==> IsDigit(t[k]) by {
      assert forall k :: 0 <= k < g ==> c[k] == t[k];
    }
    assert g < m ==> c[g] == t[g];
    DigitRunPrefix(t, g);
  }

  /** A unit prefix of length `m` that is not followed by a unit is the unit run. */
  lemma {:induction false} UnitRunPrefix(t: string, m: nat)
    requires m <= |t| && (forall k :: 0 <= k < m ==> IsUnit(t[k])) && (m < |t| ==> !IsUnit(t[m]))
    ensures UnitRun(t) == m
  {
    if m > 0 {
      UnitRunPrefix(t[1..], m - 1);
    }
  }

  /**
   * The greedy match is the only one: a number-shaped prefix that cannot be
   * extended is exactly as long as the match.
   */
  lemma GreedyUnique(t: string, n: nat)
    requires t != [] && IsDigit(t[0])
    requires n <= |t| && NumberShaped(t[..n]) && Greedy(t, n)
    ensures n == NumberLength(t)
  {
    var r := t[..n];
    var d := DigitRun(r);
    if d < n && r[d] == '.' {
      var g := DigitRun(t[d + 1..n]);
      ShapedFraction(r, d, g);
      GreedyParts(t, n, d, 1 + g);
    } else {
      ShapedWhole(r);
      GreedyParts(t, n, d, 0);
    }
  }

  /** A number-shaped text without a fraction is digits followed by units. */
  lemma ShapedWhole(r: string)
    requires NumberShaped(r)
    requires !(DigitRun(r) < |r| && r[DigitRun(r)] == '.')
    ensures forall k :: DigitRun(r) <= k < |r| ==> IsUnit(r[k])
  {
    var d := DigitRun(r);
    if d < |r| {
      assert IsUnit(r[d]);
    }
  }

  /** A number-shaped text with a fraction is digits, '.', digits, then units. */
  lemma ShapedFraction(r: string, d: nat, g: nat)
    requires NumberShaped(r) && d == DigitRun(r) && d < |r| && r[d] == '.'
    requires g == DigitRun(r[d + 1..])
    ensures 0 < g && d + 1 + g <= |r|
    ensures forall k :: d < k < d + 1 + g ==> IsDigit(r[k])
    ensures forall k :: d + 1 + g <= k < |r| ==> IsUnit(r[k])
  {
    var part := r[d + 1..];
    assert IsDigit(part[0]);
    assert forall k :: d < k < d + 1 + g ==> r[k] == part[k - d - 1];
    assert d + 1 + g < |r| ==> r[d + 1 + g] == part[g];
    FractionThenUnits(r, d, g);
  }

  /**
   * Digits up to `d`, an optional fraction of length `f`, and units up to
   * `n`, none of which can be extended, are exactly the match.
   */
  lemma GreedyParts(t: string, n: nat, d: nat, f: nat)
    requires t != [] && IsDigit(t[0])
    requires n <= |t| && Greedy(t, n) && d == DigitRun(t[..n]) && d + f <= n
    requires f > 0 ==> d < n && t[d] == '.' && f == 1 + DigitRun(t[d + 1..n]) && f >= 2
    requires f == 0 ==> !(d < n && t[d] == '.')
    requires forall k :: d + f <= k < n ==> IsUnit(t[..n][k])
    ensures n == NumberLength(t)
  {
    DigitRunUncut(t, n);
    if f > 0 {
      FractionRun(t, n, d, f - 1);
    }
    UnitTail(t, n, d + f);
  }

  /** A fraction that stops short of a digit in the text is the digit run after the '.'. */
  lemma FractionRun(t: string, n: nat, d: nat, g: nat)
    requires d + 1 + g <= n <= |t| && 0 < g
    requires g == DigitRun(t[d + 1..n]) && (d + 1 + g < |t| ==> !IsDigit(t[d + 1 + g]))
    ensures DigitRun(t[d + 1..]) == g && IsDigit(t[d + 1])
  {
    var rest, part := t[d + 1..], t[d + 1..n];
    assert part == rest[..n - d - 1];
    assert d + 1 + g < |t| ==> rest[g] == t[d + 1 + g];
    DigitRunUncut(rest, n - d - 1);
    assert part[0] == t[d + 1];
  }

  /** Units from `e` up to `n`, followed by no unit, are the unit run at `e`. */
  lemma UnitTail(t: string, n: nat, e: nat)
    requires e <= n <= |t| && (forall k :: e <= k < n ==> IsUnit(t[..n][k])) && (n < |t| ==> !IsUnit(t[n]))
    ensures UnitRun(t[e..]) == n - e
  {
    var tail, r := t[e..], t[..n];
    assert forall k :: 0 <= k < n - e ==> IsUnit(tail[k]) by {
      assert forall k :: 0 <= k < n - e ==> tail[k] == r[e + k];
    }
    assert n < |t| ==> tail[n - e] == t[n];
    UnitRunPrefix(tail, n - e);
  }

  /**
   * The converse of `ExtractNumeric`'s contract: a text `m` that starts at
   * the first digit, has the number shape and cannot be extended is what
   * `extract_numeric_value` returns.
   */
  lemma ExtractNumericOnly(s: string, m: string)
    requires FirstDigit(s) + |m| <= |s| && m == s[FirstDigit(s)..FirstDigit(s) + |m|]
    requires NumberShaped(m) && Greedy(s[FirstDigit(s)..], |m|)
    ensures ExtractNumeric(s) == m
  {
    var t := s[FirstDigit(s)..];
    assert t[..|m|] == m;
    GreedyUnique(t, |m|);
  }

  /** In a number-shaped text with a fraction, everything after the fraction digits is a unit. */
  lemma FractionThenUnits(r: string, d: nat, g: nat)
    requires NumberShaped(r) && d < |r| && r[d] == '.' && d + 1 + g <= |r|
    requires forall k :: d < k < d + 1 + g ==> IsDigit(r[k])
    requires d + 1 + g < |r| ==> !IsDigit(r[d + 1 + g])
    ensures forall k :: d + 1 + g <= k < |r| ==> IsUnit(r[k])
  {
    if d + 1 + g < |r| {
      assert IsUnit(r[d + 1 + g]);
    }
  }

  lemma {:induction false} FirstDigitAfter(p: string, t: string)
    requires forall k :: 0 <= k < |p| ==> !IsDigit(p[k])
    requires t != [] && IsDigit(t[0])
    ensures FirstDigit(p + t) == |p|
  {
    if p != [] {
      assert (p + t)[1..] == p[1..] + t;
      FirstDigitAfter(p[1..], t);
    }
  }

  /** The runs of "5692.07万": four whole digits, two fraction digits, one unit. */
  lemma ExampleWholeRun()
    ensures DigitRun("5692.07万") == 4
  {
    DigitRunOf("5692", ".07万");
    assert "5692" + ".07万" == "5692.07万";
  }

  lemma ExampleFractionRun()
    ensures DigitRun("5692.07万"[5..]) == 2
  {
    DigitRunOf("07", "万");
    assert "5692.07万"[5..] == "07" + "万";
  }

  lemma ExampleUnitRun()
    ensures UnitRun("5692.07万"[7..]) == 1
  {
    assert "5692.07万"[7..] == "万" && "万"[1..] == [];
  }

  /** Text before the first digit is skipped. */
  lemma ExtractAfterPrefix(p: string, t: string)
    requires forall k :: 0 <= k < |p| ==> !IsDigit(p[k])
    requires t != [] && IsDigit(t[0])
    ensures ExtractNumeric(p + t) == t[..NumberLength(t)]
  {
    FirstDigitAfter(p, t);
    assert (p + t)[|p|..] == t;
  }

  /** The example of the extractor's documentation: "基金最新一期规模5692.07万" gives "5692.07万". */
  lemma ExtractExample()
    ensures ExtractNumeric("基金最新一期规模" + "5692.07万") == "5692.07万"
  {
    ExtractAfterPrefix("基金最新一期规模", "5692.07万");
    ExampleWholeRun();
    ExampleFractionRun();
    ExampleUnitRun();
    assert NumberLength("5692.07万") == 8;
  }

  /** `extract_numeric_value`: a value that is not a string is returned unchanged. */
  function ExtractNumericValue(v: JValue): (r: JValue)
    ensures !v.JStr? ==> r == v
    ensures v.JStr? ==> r == JStr(ExtractNumeric(v.s))
  {
    if v.JStr? then JStr(ExtractNumeric(v.s)) else v
  }

  /** A tag whose `left_title` (default "") contains "换手率". */
  predicate Qualifies(tag: map<string, JValue>) {
    PyIn("换手率", Get(tag, "left_title", JStr(""))) == Some(true)
  }

  /** A tag whose `left_title` cannot be searched (`TypeError`). */
  predicate TitleFails(tag: map<string, JValue>) {
    PyIn("换手率", Get(tag, "left_title", JStr(""))).None?
  }

  function TagInfo(tag: map<string, JValue>): JValue {
    Get(tag, "info", JStr(""))
  }

  /** The "持仓特征" features' tags, in order; `None` when one of them cannot be iterated as dictionaries. */
  function HoldingTags(features: seq<map<string, JValue>>): Option<seq<map<string, JValue>>>
  {
    if features == [] then Some([])
    else
      var f := features[|features| - 1];
      match HoldingTags(features[..|features| - 1])
      case None => None
      case Some(prefix) =>
        if Get(f, "name", JNull) != JStr("持仓特征") then Some(prefix)
        else match IterDicts(Get(f, "tags", JArr([])))
          case None => None
          case Some(tags) => Some(prefix + tags)
  }

  /** The info of the last qualifying tag, if any: later writes to `result['换手率']` overwrite earlier ones. */
  function LastQualifying(tags: seq<map<string, JValue>>): Option<JValue> {
    if tags == [] then None
    else if Qualifies(tags[|tags| - 1]) then Some(TagInfo(tags[|tags| - 1]))
    else LastQualifying(tags[..|tags| - 1])
  }

  /** Tag `k` qualifies, carries `v`, and no qualifying tag follows it. */
  ghost predicate LastQualifyingAt(tags: seq<map<string, JValue>>, k: int, v: JValue) {
    0 <= k < |tags| && Qualifies(tags[k]) && TagInfo(tags[k]) == v &&
      forall k' :: k < k' < |tags| ==> !Qualifies(tags[k'])
  }

  /** `LastQualifying` picks the qualifying tag that no other qualifying tag follows. */
  lemma LastQualifyingIff(tags: seq<map<string, JValue>>, v: JValue)
    ensures LastQualifying(tags) == Some(v) <==> exists k :: LastQualifyingAt(tags, k, v)
    ensures LastQualifying(tags) == None <==> forall k :: 0 <= k < |tags| ==> !Qualifies(tags[k])
  {
    LastQualifyingNone(tags);
    if LastQualifying(tags) == Some(v) {
      LastQualifyingWitness(tags);
    }
    if exists k :: LastQualifyingAt(tags, k, v) {
      var k :| LastQualifyingAt(tags, k, v);
      assert Qualifies(tags[k]);
      LastQualifyingWitness(tags);
      var k0 :| LastQualifyingAt(tags, k0, LastQualifying(tags).value);
      assert !(k < k0) && !(k0 < k);
    }
  }

  /** No tag is picked exactly when none qualifies. */
  lemma {:induction false} LastQualifyingNone(tags: seq<map<string, JValue>>)
    ensures LastQualifying(tags) == None <==> forall k :: 0 <= k < |tags| ==> !Qualifies(tags[k])
  {
    if tags != [] {
      var init := tags[..|tags| - 1];
      LastQualifyingNone(init);
      assert forall k :: 0 <= k < |init| ==> init[k] == tags[k];
    }
  }

  /** A picked tag is a qualifying tag that no qualifying tag follows. */
  lemma {:induction false} LastQualifyingWitness(tags: seq<map<string, JValue>>)
    requires LastQualifying(tags).Some?
    ensures exists k :: LastQualifyingAt(tags, k, LastQualifying(tags).value)
  {
    var last := |tags| - 1;
    if Qualifies(tags[last]) {
      assert LastQualifyingAt(tags, last, LastQualifying(tags).value);
    } else {
      var init := tags[..last];
      LastQualifyingWitness(init);
      var k :| LastQualifyingAt(init, k, LastQualifying(init).value);
      assert forall j :: 0 <= j < |init| ==> init[j] == tags[j];
      assert LastQualifyingAt(tags, k, LastQualifying(tags).value);
    }
  }

  /**
   * What `parse_fund_details` computes: `Raised` when `data` is not a
   * dictionary, when the feature list or a "持仓特征" tag list does not
   * iterate as dictionaries, when a `left_title` cannot be searched, or when
   * no tag qualifies (`KeyError` on `result['换手率']`); otherwise the
   * extracted info of the last qualifying tag.
   */
  function Details(data: JValue): Outcome<JValue> {
    if !data.JObj? then Raised
    else match IterDicts(Get(data.fields, "tssj_list", JArr([])))
      case None => Raised
      case Some(features) =>
        match HoldingTags(features)
        case None => Raised
        case Some(tags) => TagsOutcome(tags)
  }

  /** The outcome of the walk once the holding tags are collected. */
  function TagsOutcome(tags: seq<map<string, JValue>>): Outcome<JValue> {
    if exists k :: 0 <= k < |tags| && TitleFails(tags[k]) then Raised
    else match LastQualifying(tags)
      case None => Raised
      case Some(info) => Returned(ExtractNumericValue(info))
  }

  /** Later tags overwrite earlier ones: the last qualifying tag of `a + b` is `b`'s if it has one. */
  lemma {:induction false} LastQualifyingAppend(a: seq<map<string, JValue>>, b: seq<map<string, JValue>>)
    ensures LastQualifying(a + b) == if LastQualifying(b).Some? then LastQualifying(b) else LastQualifying(a)
    decreases |b|
  {
    if b == [] {
      assert a + b == a;
    } else {
      assert (a + b)[..|a + b| - 1] == a + b[..|b| - 1];
      LastQualifyingAppend(a, b[..|b| - 1]);
    }
  }

  /**
   * The inner loop of `parse_fund_details` over one feature's tags,
   * starting from the current `result['换手率']` (`current`); `None` when a
   * title raises.
   */
  method ScanTags(tags: seq<map<string, JValue>>, current: Option<JValue>) returns (r: Option<Option<JValue>>)
    ensures r.None? <==> exists k :: 0 <= k < |tags| && TitleFails(tags[k])
    ensures r.Some? ==> r.value == if LastQualifying(tags).Some? then LastQualifying(tags) else current
  {
    var result := current;
    var j := 0;
    while j < |tags|
      invariant 0 <= j <= |tags|
      invariant forall k :: 0 <= k < j ==> !TitleFails(tags[k])
      invariant result == if LastQualifying(tags[..j]).Some? then LastQualifying(tags[..j]) else current
    {
      assert tags[..j + 1][..j] == tags[..j];
      var hit := PyIn("换手率", Get(tags[j], "left_title", JStr("")));
      if hit.None? {
        return None;
      }
      if hit.value {
        result := Some(TagInfo(tags[j]));
      }
      j := j + 1;
    }
    assert tags[..j] == tags;
    return Some(result);
  }

  /** `parse_fund_details`: the walk over features and their tags. */
  method ParseFundDetails(data: JValue) returns (r: Outcome<JValue>)
    ensures r == Details(data)
  {
    if !data.JObj? {
      return Raised;
    }
    var featuresOpt := IterDicts(Get(data.fields, "tssj_list", JArr([])));
    if featuresOpt.None? {
      return Raised;
    }
    r := WalkFeatures(featuresOpt.value);
  }

  /** The outer loop: every "持仓特征" feature's tags are scanned in turn. */
  method WalkFeatures(features: seq<map<string, JValue>>) returns (r: Outcome<JValue>)
    ensures HoldingTags(features).None? ==> r.Raised?
    ensures HoldingTags(features).Some? ==> r == TagsOutcome(HoldingTags(features).value)
  {
    var result: Option<JValue> := None;
    ghost var seen: seq<map<string, JValue>> := [];
    var i := 0;
    while i < |features|
      invariant 0 <= i <= |features|
      invariant HoldingTags(features[..i]) == Some(seen)
      invariant forall k :: 0 <= k < |seen| ==> !TitleFails(seen[k])
      invariant result == LastQualifying(seen)
    {
      var feature := features[i];
      assert features[..i + 1][..i] == features[..i];
      if Get(feature, "name", JNull) == JStr("持仓特征") {
        var tagsOpt := IterDicts(Get(feature, "tags", JArr([])));
        if tagsOpt.None? {
          HoldingTagsStuck(features, i);
          return Raised;
        }
        var tags := tagsOpt.value;
        var scanned := ScanTags(tags, result);
        if scanned.None? {
          var k :| 0 <= k < |tags| && TitleFails(tags[k]);
          assert (seen + tags)[|seen| + k] == tags[k];
          HoldingTagsFails(features, i, seen + tags, |seen| + k);
          return Raised;
        }
        LastQualifyingAppend(seen, tags);
        result := scanned.value;
        seen := seen + tags;
      }
      i := i + 1;
    }
    assert features[..i] == features;
    if result.None? {
      return Raised;
    }
    r := Returned(ExtractNumericValue(result.value));
  }

  /** A holding feature whose tags do not iterate aborts the whole walk. */
  lemma {:induction false} HoldingTagsStuck(features: seq<map<string, JValue>>, i: nat)
    requires i < |features|
    requires Get(features[i], "name", JNull) == JStr("持仓特征")
    requires IterDicts(Get(features[i], "tags", JArr([]))).None?
    ensures HoldingTags(features).None?
    decreases |features|
  {
    if i < |features| - 1 {
      HoldingTagsStuck(features[..|features| - 1], i);
    } else {
      assert features[|features| - 1] == features[i];
    }
  }

  /** How the flattened tag list of a prefix extends to the whole feature list. */
  lemma {:induction false} HoldingTagsExtend(features: seq<map<string, JValue>>, i: nat, tags: seq<map<string, JValue>>)
    requires i <= |features| && HoldingTags(features[..i]) == Some(tags)
    ensures HoldingTags(features).None? || (HoldingTags(features).Some? && tags <= HoldingTags(features).value)
    decreases |features| - i
  {
    if i < |features| {
      var next := HoldingTags(features[..i + 1]);
      assert features[..i + 1][..i] == features[..i];
      if next.Some? {
        HoldingTagsExtend(features, i + 1, next.value);
      } else {
        assert features[..i + 1] == features[..i + 1];
        HoldingTagsNonePropagates(features, i + 1);
      }
    } else {
      assert features[..i] == features;
    }
  }

  lemma {:induction false} HoldingTagsNonePropagates(features: seq<map<string, JValue>>, i: nat)
    requires i <= |features| && HoldingTags(features[..i]).None?
    ensures HoldingTags(features).None?
    decreases |features| - i
  {
    if i < |features| {
      assert features[..i + 1][..i] == features[..i];
      HoldingTagsNonePropagates(features, i + 1);
    } else {
      assert features[..i] == features;
    }
  }

  /** A tag with an unsearchable title inside a holding feature makes the walk raise. */
  lemma HoldingTagsFails(features: seq<map<string, JValue>>, i: nat, upto: seq<map<string, JValue>>, k: nat)
    requires i < |features| && HoldingTags(features[..i + 1]) == Some(upto)
    requires k < |upto| && TitleFails(upto[k])
    ensures HoldingTags(features).None? ||
      (HoldingTags(features).Some? && exists k' :: 0 <= k' < |HoldingTags(features).value| && TitleFails(HoldingTags(features).value[k']))
  {
    HoldingTagsExtend(features, i + 1, upto);
    if HoldingTags(features).Some? {
      assert HoldingTags(features).value[k] == upto[k];
    }
  }

  /**
   * `parse_fund_data` after the request: `None` for a failed request, an
   * empty reply, one that does not start like JSON, undecodable JSON, a
   * `code` other than 0, or any exception of the detail walk; otherwise the
   * turnover value.
   */
  function ParseFundData(reply: Outcome<string>, loads: string -> Option<JValue>): (r: Option<JValue>)
    ensures reply.Raised? ==> r.None?
    ensures reply.Returned? && Strip(reply.value) == "" ==> r.None?
    ensures reply.Returned? && !StartsWith(Strip(reply.value), "{") && !StartsWith(Strip(reply.value), "[") ==> r.None?
    ensures r.Some? ==>
      var data := loads(Strip(reply.value));
      data.Some? && data.value.JObj? && "code" in data.value.fields && EqualsZero(data.value.fields["code"]) &&
      "data" in data.value.fields && Details(data.value.fields["data"]) == Returned(r.value)
    ensures reply.Returned? && (StartsWith(Strip(reply.value), "{") || StartsWith(Strip(reply.value), "[")) ==>
      var data := loads(Strip(reply.value));
      data.Some? && data.value.JObj? && "code" in data.value.fields && EqualsZero(data.value.fields["code"]) &&
      "data" in data.value.fields && Details(data.value.fields["data"]).Returned? ==>
      r == Some(Details(data.value.fields["data"]).value)
  {
    match reply
    case Raised => None
    case Returned(raw) =>
      var text := Strip(raw);
      if text == "" then None
      else if !(StartsWith(text, "{") || StartsWith(text, "[")) then None
      else match loads(text)
        case None => None
        case Some(data) =>
          if !data.JObj? || "code" !in data.fields then None
          else if !EqualsZero(data.fields["code"]) then None
          else if "data" !in data.fields then None
          else match Details(data.fields["data"])
            case Raised => None
            case Returned(v) => Some(v)
  }
}
