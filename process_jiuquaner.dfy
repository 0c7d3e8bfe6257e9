/**
 * Naming the funds of a watch list (`process_jiuquaner.py`): the fund list
 * from the provider gets six-digit codes, a table from `int(code)` to name
 * is filled in a loop, every code of the watch list is looked up in it,
 * unmatched codes are named "未找到", and the codes are rewritten with six
 * digits. The spreadsheet round trips are left out; the provider's list and
 * the watch list's codes are inputs.
 */
module ProcessJiuquaner {
  import opened Common
  import opened Decimal

  const NotFound: string := "未找到"

  function Zeros(n: nat): (r: string)
    ensures |r| == n && forall i :: 0 <= i < n ==> r[i] == '0'
  {
    if n == 0 then [] else Zeros(n - 1) + ['0']
  }

  /** `s.zfill(width)`: zeros go after a leading sign, until the string is `width` long. */
  function ZFill(s: string, width: nat): (r: string)
    ensures |r| == if |s| >= width then |s| else width
    ensures s != [] && (s[0] == '+' || s[0] == '-') ==> r[0] == s[0]
  {
    if |s| >= width then s
    else if |s| > 0 && (s[0] == '+' || s[0] == '-') then [s[0]] + Zeros(width - |s|) + s[1..]
    else Zeros(width - |s|) + s
  }

  /**
   * The padded string is `width` long unless the original was longer, a
   * string that is long enough is left alone, and one without a sign
   * ends with the original behind nothing but zeros.
   */
  lemma ZFillShape(s: string, width: nat)
    ensures |ZFill(s, width)| == if |s| >= width then |s| else width
    ensures |s| >= width ==> ZFill(s, width) == s
    ensures (|s| == 0 || (s[0] != '+' && s[0] != '-')) ==>
      (EndsWith(ZFill(s, width), s) &&
       forall i :: 0 <= i < |ZFill(s, width)| - |s| ==> ZFill(s, width)[i] == '0')
  {
    var r := ZFill(s, width);
    if |s| < width && (|s| == 0 || (s[0] != '+' && s[0] != '-')) {
      assert r[|r| - |s|..] == s;
    }
  }

  lemma {:induction false} DigitsConcat(a: string, b: string)
    requires AllDigits(a) && AllDigits(b)
    ensures AllDigits(a + b)
    ensures DigitsValue(a + b) == DigitsValue(a) * Pow10(|b|) + DigitsValue(b)
  {
    if b == [] {
      assert a + b == a;
    } else {
      var b' := b[..|b| - 1];
      var d := DigitValue(b[|b| - 1]);
      DigitsConcat(a, b');
      assert (a + b)[..|a + b| - 1] == a + b';
      assert (a + b)[|a + b| - 1] == b[|b| - 1];
      assert DigitsValue(a + b) == DigitsValue(a + b') * 10 + d;
      assert DigitsValue(b) == DigitsValue(b') * 10 + d;
      ShiftStep(DigitsValue(a), Pow10(|b'|), DigitsValue(b'), d);
    }
  }

  /** One more digit multiplies the shifted head by ten once more. */
  lemma ShiftStep(x: int, p: int, y: int, d: int)
    ensures (x * p + y) * 10 + d == x * (10 * p) + (y * 10 + d)
  {
  }

  lemma {:induction false} ZerosValue(n: nat)
    ensures AllDigits(Zeros(n)) && DigitsValue(Zeros(n)) == 0
  {
    if n > 0 {
      ZerosValue(n - 1);
      assert Zeros(n)[..n - 1] == Zeros(n - 1);
    }
  }

  /** `int(s)` of a plain string of digits is its value. */
  lemma ParseDigits(s: string)
    requires s != [] && AllDigits(s)
    ensures ParseInt(s) == Some(DigitsValue(s) as int)
  {
    assert !IsSpace(s[0]) && !IsSpace(s[|s| - 1]);
    StripNoop(s);
    assert s[0] != '-' && s[0] != '+';
  }

  lemma PaddedDigits(s: string, width: nat)
    requires s != [] && AllDigits(s)
    ensures ZFill(s, width) != [] && AllDigits(ZFill(s, width)) && DigitsValue(ZFill(s, width)) == DigitsValue(s)
  {
    var r := ZFill(s, width);
    if |s| < width {
      var z := Zeros(width - |s|);
      assert s[0] != '+' && s[0] != '-' by { assert IsDigit(s[0]); }
      assert r == z + s;
      ZerosValue(width - |s|);
      DigitsConcat(z, s);
      assert DigitsValue(z) * Pow10(|s|) == 0;
    } else {
      assert r == s;
    }
  }

  /** Padding a code of digits keeps its integer: codes differing only in leading zeros read the same. */
  lemma ZFillKeepsInteger(s: string, width: nat)
    requires s != [] && AllDigits(s)
    ensures ParseInt(ZFill(s, width)) == ParseInt(s)
  {
    PaddedDigits(s, width);
    ParseDigits(s);
    ParseDigits(ZFill(s, width));
  }

  /** `str(n)` for an integer. */
  function IntToString(n: int): string {
    if n < 0 then "-" + NatToString(-n) else NatToString(n)
  }

  /** `int()` on a code, `None` for the `ValueError` it raises. */
  function IntOf(): string -> Option<int> {
    s => ParseInt(s)
  }

  /** Every row whose code reads as an integer, keyed by that integer, a later row replacing an earlier one. */
  function Table(fundList: seq<(string, string)>, read: string -> Option<int>): map<int, string> {
    if fundList == [] then map[]
    else
      var last := fundList[|fundList| - 1];
      var t := Table(fundList[..|fundList| - 1], read);
      if read(last.0).Some? then t[read(last.0).value := last.1] else t
  }

  predicate AllRead(fundList: seq<(string, string)>, read: string -> Option<int>) {
    forall k :: 0 <= k < |fundList| ==> read(fundList[k].0).Some?
  }

  /**
   * A key is in the table exactly when some row's code reads as it, and
   * its name is that of the last such row.
   */
  lemma {:induction false} TableMeaning(fundList: seq<(string, string)>, read: string -> Option<int>, key: int)
    ensures key in Table(fundList, read) <==> exists k :: 0 <= k < |fundList| && read(fundList[k].0) == Some(key)
    ensures key in Table(fundList, read) ==>
      exists k :: 0 <= k < |fundList| && read(fundList[k].0) == Some(key) &&
        Table(fundList, read)[key] == fundList[k].1 &&
        forall j :: k < j < |fundList| ==> read(fundList[j].0) != Some(key)
  {
    if fundList != [] {
      var n := |fundList| - 1;
      var init := fundList[..n];
      TableMeaning(init, read, key);
      assert forall k :: 0 <= k < n ==> init[k] == fundList[k];
      if key in Table(fundList, read) && read(fundList[n].0) != Some(key) {
        var k :| 0 <= k < n && read(init[k].0) == Some(key) && Table(init, read)[key] == init[k].1 &&
          forall j :: k < j < n ==> read(init[j].0) != Some(key);
        assert Table(fundList, read)[key] == fundList[k].1;
      }
    }
  }

  lemma TableStep(fundList: seq<(string, string)>, read: string -> Option<int>, k: nat)
    requires k < |fundList|
    ensures Table(fundList[..k + 1], read) ==
      if read(fundList[k].0).Some? then Table(fundList[..k], read)[read(fundList[k].0).value := fundList[k].1] else Table(fundList[..k], read)
    ensures AllRead(fundList[..k + 1], read) == (AllRead(fundList[..k], read) && read(fundList[k].0).Some?)
  {
    assert fundList[..k + 1][..k] == fundList[..k];
    assert fundList[..k + 1][k] == fundList[k];
  }

  /**
   * The loop that fills `fund_code_to_name`; `None` stands for the
   * `ValueError` `int()` raises on a code that is not an integer.
   */
  method BuildTable(fundList: seq<(string, string)>) returns (table: Option<map<int, string>>)
    ensures table.None? <==> !AllRead(fundList, IntOf())
    ensures table.Some? ==> table.value == Table(fundList, IntOf())
  {
    var t: map<int, string> := map[];
    for k := 0 to |fundList|
      invariant AllRead(fundList[..k], IntOf()) && t == Table(fundList[..k], IntOf())
    {
      TableStep(fundList, IntOf(), k);
      var code := IntOf()(fundList[k].0);
      if code.None? {
        assert !AllRead(fundList, IntOf());
        return None;
      }
      t := t[code.value := fundList[k].1];
    }
    assert fundList[..|fundList|] == fundList;
    table := Some(t);
  }

  /** `get_fund_name`: the table's name for the code, "未找到" when there is none. */
  function NameFor(table: map<int, string>, code: int): string {
    if code in table then table[code] else NotFound
  }

  /** One row of the output: the code written with six digits and the name found for it. */
  function OutputRow(table: map<int, string>, code: int): (string, string) {
    (ZFill(IntToString(code), 6), NameFor(table, code))
  }

  function FoundMask(): ((string, string)) -> bool {
    (row: (string, string)) => row.1 != NotFound
  }

  function MissingMask(): ((string, string)) -> bool {
    (row: (string, string)) => row.1 == NotFound
  }

  datatype Outcome = Outcome(rows: seq<(string, string)>, found: nat, notFound: nat)

  /** The provider's list with every code padded to six digits. */
  function Padded(provider: seq<(string, string)>): seq<(string, string)> {
    seq(|provider|, k requires 0 <= k < |provider| => (ZFill(provider[k].0, 6), provider[k].1))
  }

  /** `fund_list['基金代码'].str.zfill(6)`, row by row. */
  method PadCodes(provider: seq<(string, string)>) returns (padded: seq<(string, string)>)
    ensures padded == Padded(provider)
  {
    padded := [];
    for k := 0 to |provider|
      invariant padded == seq(k, j requires 0 <= j < k => (ZFill(provider[j].0, 6), provider[j].1))
    {
      padded := padded + [(ZFill(provider[k].0, 6), provider[k].1)];
    }
  }

  /** The output rows, one per watch-list code, in order. */
  method NameRows(table: map<int, string>, codes: seq<int>) returns (rows: seq<(string, string)>)
    ensures |rows| == |codes| && forall i :: 0 <= i < |codes| ==> rows[i] == OutputRow(table, codes[i])
  {
    rows := [];
    for i := 0 to |codes|
      invariant |rows| == i && forall j :: 0 <= j < i ==> rows[j] == OutputRow(table, codes[j])
    {
      rows := rows + [OutputRow(table, codes[i])];
    }
  }

  /**
   * `process_jiuquaner_with_fund_names` on the provider's list and the
   * watch list's codes: the provider codes are padded, the table is
   * built, and each watch-list row gets its six-digit code and its name.
   */
  method ProcessWithFundNames(provider: seq<(string, string)>, codes: seq<int>) returns (r: Option<Outcome>)
    ensures r.None? <==> !AllRead(Padded(provider), IntOf())
    ensures r.Some? ==> |r.value.rows| == |codes|
    ensures r.Some? ==> forall i :: 0 <= i < |codes| ==> r.value.rows[i] == OutputRow(Table(Padded(provider), IntOf()), codes[i])
    ensures r.Some? ==> r.value.found == Count(r.value.rows, FoundMask()) && r.value.notFound == Count(r.value.rows, MissingMask())
    ensures r.Some? ==> r.value.found + r.value.notFound == |codes|
  {
    var padded := PadCodes(provider);
    var table := BuildTable(padded);
    if table.None? {
      return None;
    }
    var rows := NameRows(table.value, codes);
    CountSplit(rows, FoundMask(), MissingMask());
    r := Some(Outcome(rows, Count(rows, FoundMask()), Count(rows, MissingMask())));
  }

  /**
   * A watch-list code is named after the last listed fund whose code reads
   * as the same integer, whatever its leading zeros, and "未找到" when none
   * does.
   */
  lemma NameForMeaning(fundList: seq<(string, string)>, code: int)
    ensures (exists k :: 0 <= k < |fundList| && ParseInt(fundList[k].0) == Some(code)) ==>
      exists k :: 0 <= k < |fundList| && ParseInt(fundList[k].0) == Some(code) &&
        NameFor(Table(fundList, IntOf()), code) == fundList[k].1 &&
        forall j :: k < j < |fundList| ==> ParseInt(fundList[j].0) != Some(code)
    ensures (forall k :: 0 <= k < |fundList| ==> ParseInt(fundList[k].0) != Some(code)) ==>
      NameFor(Table(fundList, IntOf()), code) == NotFound
  {
    TableMeaning(fundList, IntOf(), code);
  }
}
