/**
 * The drawdown table of a fund page (`parse_drawdown_data.py`) and the
 * retry decorator wrapped around it. The decorator is a loop over
 * attempts that retries only a connection reset; the parser reads the
 * second row of the page's table into a period-to-text dictionary, returns
 * a fixed sample when no browser is given, and returns `{}` when anything
 * fails. The browser's element lookups become the page's cells, each an
 * `Option` that is `None` where the lookup would raise.
 */
module ParseDrawdownData {
  import opened Common

  /** An exception: `urllib.error.URLError` or any other `Exception`, with its text. */
  datatype Failure = UrlError(text: string) | OtherError(text: string)

  /** What one call of the wrapped function did. */
  datatype Attempt<T> = Completed(value: T) | Threw(error: Failure)

  /** What the wrapper did: returned a value, returned `None` without calling, or raised. */
  datatype Retried<T> = Value(v: T) | NoCall | Failed(error: Failure)

  const ResetCode: string := "WinError 10054"
  const ResetText: string := "远程主机强迫关闭了一个现有的连接"

  /** The only errors worth another attempt: a `URLError` whose text reports a reset connection. */
  predicate Transient(e: Failure) {
    e.UrlError? && (Contains(e.text, ResetCode) || Contains(e.text, ResetText))
  }

  /**
   * `retry_on_network_error(max_retries)` applied to a function whose
   * `attempt`-th call does `call(attempt)`. `calls` is the number of calls
   * made; the delay between them is left out.
   */
  method RetryOnNetworkError<T>(maxRetries: int, call: nat -> Attempt<T>) returns (r: Retried<T>, calls: nat)
    ensures r.NoCall? <==> maxRetries <= 0
    ensures maxRetries <= 0 ==> calls == 0
    ensures maxRetries > 0 ==> 1 <= calls <= maxRetries
    ensures forall j :: 0 <= j < calls - 1 ==> call(j).Threw? && Transient(call(j).error)
    ensures r.Value? ==> call(calls - 1) == Completed(r.v)
    ensures r.Failed? ==> call(calls - 1) == Threw(r.error) && (!Transient(r.error) || calls == maxRetries)
  {
    calls := 0;
    var attempt := 0;
    while attempt < maxRetries
      invariant 0 <= attempt && calls == attempt
      invariant maxRetries > 0 ==> attempt < maxRetries
      invariant maxRetries <= 0 ==> attempt == 0
      invariant forall j :: 0 <= j < attempt ==> call(j).Threw? && Transient(call(j).error)
      decreases maxRetries - attempt
    {
      var outcome := call(attempt);
      calls := attempt + 1;
      match outcome {
        case Completed(v) =>
          r := Value(v);
          return;
        case Threw(e) =>
          if Transient(e) && attempt < maxRetries - 1 {
            attempt := attempt + 1;
            calls := attempt;
          } else {
            r := Failed(e);
            return;
          }
      }
    }
    r := NoCall;
  }

  /** The column headings of the drawdown table; the first one heads the row titles. */
  const Periods: seq<string> := ["本基金", "成立以来", "最近一月", "最近三月", "最近半年", "今年以来", "最近一年", "最近两年", "最近三年"]

  /** The dictionary returned when no browser is given. */
  const Sample: seq<(string, string)> := [
    ("成立以来", "24.78%"), ("最近一月", "6.14%"), ("最近三月", "6.14%"), ("最近半年", "10.16%"),
    ("今年以来", "10.16%"), ("最近一年", "10.16%"), ("最近两年", "--")]

  /**
   * The page a browser shows: `None` when the table does not appear in
   * time, otherwise its rows, each a sequence of cells whose span text is
   * `None` where the lookup of the cell's `div.cell span` raises.
   */
  datatype Page = Page(rows: Option<seq<seq<Option<string>>>>)

  /** How many cells the loop reads: `min(len(cells), len(periods))`. */
  function Span(cells: seq<Option<string>>): nat {
    if |cells| < |Periods| then |cells| else |Periods|
  }

  /** Every cell the loop reads, from the second on, has its span. */
  predicate Readable(cells: seq<Option<string>>) {
    forall i :: 1 <= i < Span(cells) ==> cells[i].Some?
  }

  /** The dictionary, as its entries in insertion order, filled from a row's cells. */
  function Entries(cells: seq<Option<string>>): seq<(string, string)>
    requires Readable(cells)
  {
    seq(if Span(cells) == 0 then 0 else Span(cells) - 1, k requires 0 <= k < Span(cells) - 1 => (Periods[k + 1], cells[k + 1].value))
  }

  /** `parse_drawdown_data(driver=page)`, `page == None` when no browser is given. */
  function Drawdown(page: Option<Page>): (r: seq<(string, string)>)
    ensures |r| <= |Periods| - 1
    ensures forall k :: 0 <= k < |r| ==> r[k].0 == Periods[k + 1]
  {
    match page
    case None => Sample
    case Some(Page(rows)) =>
      if rows.None? || |rows.value| < 2 || !Readable(rows.value[1]) then []
      else Entries(rows.value[1])
  }

  /** The loop over the drawdown row's cells. */
  method ParseDrawdown(page: Option<Page>) returns (data: seq<(string, string)>)
    ensures data == Drawdown(page)
  {
    if page.None? {
      return Sample;
    }
    var rows := page.value.rows;
    if rows.None? || |rows.value| < 2 {
      return [];
    }
    var cells := rows.value[1];
    var n := Span(cells);
    data := [];
    var i := 1;
    while i < n
      invariant 1 <= i && (n == 0 ==> i == 1) && (n > 0 ==> i <= n)
      invariant forall j :: 1 <= j < i ==> cells[j].Some?
      invariant |data| == i - 1 && forall k :: 0 <= k < i - 1 ==> data[k] == (Periods[k + 1], cells[k + 1].value)
    {
      if cells[i].None? {
        return [];
      }
      data := data + [(Periods[i], cells[i].value)];
      i := i + 1;
    }
  }

  /**
   * A page's drawdown keys are the periods after the first, in order, one
   * per cell read: at most eight, no two alike, never "本基金"; a row that
   * cannot be read in full, or a missing table or row, gives nothing.
   */
  lemma DrawdownShape(page: Page)
    ensures |Drawdown(Some(page))| <= |Periods| - 1
    ensures forall k :: 0 <= k < |Drawdown(Some(page))| ==> Drawdown(Some(page))[k].0 == Periods[k + 1]
    ensures forall j, k :: 0 <= j < k < |Drawdown(Some(page))| ==> Drawdown(Some(page))[j].0 != Drawdown(Some(page))[k].0
    ensures forall k :: 0 <= k < |Drawdown(Some(page))| ==> Drawdown(Some(page))[k].0 != "本基金"
    ensures page.rows.Some? && |page.rows.value| >= 2 && Readable(page.rows.value[1]) ==>
      |Drawdown(Some(page))| == if Span(page.rows.value[1]) == 0 then 0 else Span(page.rows.value[1]) - 1
    ensures page.rows.None? || |page.rows.value| < 2 || !Readable(page.rows.value[1]) ==> Drawdown(Some(page)) == []
  {
    var d := Drawdown(Some(page));
    forall j, k | 0 <= j < k < |d|
      ensures d[j].0 != d[k].0
    {
      assert d[j].0 == Periods[j + 1] && d[k].0 == Periods[k + 1];
    }
  }

  /** Without a browser, the seven sample periods, none of them "本基金". */
  lemma SampleShape()
    ensures |Drawdown(None)| == 7
    ensures forall k :: 0 <= k < 7 ==> Drawdown(None)[k].0 == Periods[k + 1]
  {
  }

  /**
   * The decorated parser: every error is caught inside it, so the first
   * call returns, and its dictionary is what the wrapper hands back.
   */
  method ParseDrawdownWithRetry(page: Option<Page>) returns (r: Retried<seq<(string, string)>>, calls: nat)
    ensures r == Value(Drawdown(page)) && calls == 1
  {
    var data := ParseDrawdown(page);
    var call := (attempt: nat) => Completed(data);
    r, calls := RetryOnNetworkError(3, call);
    assert !call(0).Threw?;
  }
}
