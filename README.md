# funds — a verified model of the screening and data-shaping rules

The `funds` repository is a set of Python scripts that screen Chinese mutual funds.
They pull rankings, fund details, scale and holder figures from several providers
(akshare, East Money, Jiucaishuo, Simuwang), then filter, merge and rank them.
The results go to Excel workbooks and to the JSON file `fund_data.json`.

This project models, in Dafny, the deterministic rules that sit between those
network, browser and spreadsheet calls. Every provider reply is an input of the
model.

- **Screening pipeline** (`AnalyzeFunds`): the stages of `analyze_funds`, in order:
  - the 6-month drop, the keyword block-list and the benchmark test;
  - excess returns and scale accumulation across share classes;
  - the turnover, scale, top-10 and excess-ratio filters;
  - the run-aborting name lookup and the per-row skip on errors.
- **Share classes and aggregation** (`FundDataProcessor`):
  - A/C name derivation;
  - scale and holder-structure crawl shaping;
  - per-date summation and share-weighted averaging, keeping the five newest dates;
  - the cache freshness rule.
- **Parsers**:
  - `FundSearchParser`: the search reply, as JSON or JSONP, its error code and its mapping;
  - `JiuquanFund`: the "number plus unit" extractor and the turnover-tag walk;
  - `FundScaleCrawler`: the scale crawl;
  - `ProcessJiuquaner`: `zfill(6)` codes and the integer-keyed name lookup.
- **Matching and ranking**:
  - `StyleExtraction`: the same-day cache, the top-10 share, and the nearest index by style factor;
  - `EnhancedIndex` and `FundApp`: the per-column top ten with the gold rule, the column widths, and a fund type without eligible rows, which raises in the index-fund workbook and is skipped by the web application.
- **Retry and record merges**:
  - `ParseDrawdownData`: the retry decorator and the drawdown periods;
  - `SimuwangBrowserStable`: the browser object, the stage-return rows and the merge into the fund file;
  - `MainScript`: the merge of nearest indices and turnover into `fund_data.json`.

Shared modules hold the Python semantics these rules rely on:

- `Common`: strings and masks;
- `Json`: parsed JSON values, `get` and `in`;
- `Decimal`: the `float()`/`int()` subset, `round(x, 2)` and `"%.2f"`;
- `Dates`: `strptime`/`strftime` with `%Y-%m-%d`, and day numbers;
- `Sorting`: Python's string order and the stable descending sort.

Numbers are modelled as exact reals.

Code that loops over data is written as methods with loops. Each method is proved
equal to a reference function, and the properties are proved about that function
as lemmas. The Simuwang browser is a class whose methods update its driver.

## Model

| member | source | states |
|---|---|---|
| AnalyzeFunds.KeywordStage | analyze_funds.py:107-111 | the keyword loop leaves exactly the rows whose name holds none of the 29 keywords, in their order |
| AnalyzeFunds.KeywordSurvivors | analyze_funds.py:110-111 | a row survives the keyword stage if and only if it is in the frame and its name holds no keyword |
| AnalyzeFunds.NamelessSurvives | analyze_funds.py:111 | `na=False`: a row without a name is never removed by a keyword |
| AnalyzeFunds.LetterADrops | analyze_funds.py:107-111 | the keyword "A" removes every name containing a capital A |
| AnalyzeFunds.DropMissing6M | analyze_funds.py:105 | the rows kept are exactly those with a 6-month return |
| AnalyzeFunds.BenchmarkConjunction | analyze_funds.py:113-116 | the four benchmark masks in sequence equal one mask by their conjunction (a missing cell fails) |
| AnalyzeFunds.BenchmarkOrderFree | analyze_funds.py:113-116 | applying the masks in another order gives the same frame |
| AnalyzeFunds.AddColumns | analyze_funds.py:119-128 | each excess column is the return minus its benchmark and is non-negative after the benchmark stage; the five added cells start empty |
| AnalyzeFunds.AddAllColumns | analyze_funds.py:119-128 | the added columns are computed row by row, one output row per input row |
| AnalyzeFunds.NumRun | analyze_funds.py:170 | the greedy `[\d.]+` run: every character in it matches and the next one does not |
| AnalyzeFunds.YiAmount | analyze_funds.py:170 | a match of `([\d.]+)亿元` is a non-empty run of digits and dots followed by "亿元" in the text |
| AnalyzeFunds.YiAmountOfFormatted | analyze_funds.py:179-186 | a cell written as "%.2f亿元" matches the pattern again with its own number |
| AnalyzeFunds.YiAmountEmpty | analyze_funds.py:174-183 | an empty cell holds no amount |
| AnalyzeFunds.SiblingScale | analyze_funds.py:167-170 | `info['最新规模']` yields a text exactly when the info is a dictionary holding a string there, and otherwise raises |
| AnalyzeFunds.Amount | analyze_funds.py:170-172 | no match gives no amount; a match that `float()` rejects raises; otherwise the amount is the float of the group and is non-negative |
| AnalyzeFunds.AddScale | analyze_funds.py:170-186 | a text without an amount leaves the cell alone; otherwise the new cell is "%.2f亿元" of the cell's amount (0 if it has none) plus the new amount; malformed amounts raise |
| AnalyzeFunds.AccumulateScale | analyze_funds.py:162-186 | the loop over the share classes ends in the cell given by the accumulation over the hits |
| AnalyzeFunds.AddScaleRendered | analyze_funds.py:174-186 | adding one text to a rendered total renders the next running total |
| AnalyzeFunds.CellAmountRendered | analyze_funds.py:179-181 | a rendered total reads back as its value rounded to two decimals |
| AnalyzeFunds.ScaleOverChain | analyze_funds.py:162-186 | the final cell renders the chained total of the matched amounts, which are all non-negative |
| AnalyzeFunds.ChainError | analyze_funds.py:185-186 | each rounding step moves the running total by at most 0.005 from the exact sum |
| AnalyzeFunds.ScaleCellMeaning | analyze_funds.py:162-186 | the 最新规模 cell is "" when no share class matched, otherwise "%.2f亿元" of a total within 0.005 per step of the sum of the amounts |
| AnalyzeFunds.ChainNonNegative | analyze_funds.py:185 | a running total of non-negative amounts stays non-negative |
| AnalyzeFunds.Put | analyze_funds.py:196-200 | writing one detail column changes that column only |
| AnalyzeFunds.WriteDetail | analyze_funds.py:195-200 | `key in detail` that raises stops the block; a false test writes nothing; a true test on a non-dictionary raises; on a dictionary the value is copied |
| AnalyzeFunds.DetailWrites | analyze_funds.py:194-200 | the three detail writes keep the fund, its scale and its listing date |
| AnalyzeFunds.Top10Fallback | analyze_funds.py:203-209 | only the top-10 cell can change, and only to "%.2f%%" of the akshare weight when the cell was blank |
| AnalyzeFunds.DetailStep | analyze_funds.py:187-211 | the try block keeps the fund, its scale and its excess returns whatever is raised |
| AnalyzeFunds.DetailsFrom | analyze_funds.py:193-209 | the part after 成立时间 keeps the fund and the listing date |
| AnalyzeFunds.EnrichRow | analyze_funds.py:139-156 | an iteration aborts the loop exactly when the name lookup gives nothing or "" |
| AnalyzeFunds.EnrichAll | analyze_funds.py:139-211 | a finished loop reports one row per input row, each enriched from its own input row |
| AnalyzeFunds.EnrichAllAborted | analyze_funds.py:142-145 | the run is aborted if and only if some row's name is missing and each row above it went through the loop |
| AnalyzeFunds.Enrich | analyze_funds.py:139-211 | the loop that writes cells row by row gives the outcome `EnrichAll` defines |
| AnalyzeFunds.SearchErrorSkipsRow | analyze_funds.py:152-160 | an error or non-list search result skips the rest of the iteration: no scale, no details |
| AnalyzeFunds.SearchRequestFailureSkipsRow | analyze_funds.py:152-156 | a failed search request is such an error and skips the row |
| AnalyzeFunds.NonObjectDetailWritesNothing | analyze_funds.py:194-200 | a detail that is not a dictionary writes none of the three columns |
| AnalyzeFunds.DetailWritesCell | analyze_funds.py:195-200 | a written detail column holds the dictionary's value under its key |
| AnalyzeFunds.DetailStepCell | analyze_funds.py:193-200 | 换手率 and 持股行业集中度 are left alone or copied from a dictionary returned by `parse_fund_data` |
| AnalyzeFunds.DetailStepTop10 | analyze_funds.py:193-209 | 前10大重仓股占比 is left alone, copied from the detail dictionary, or the fallback's "%.2f%%" |
| AnalyzeFunds.StringDetailLeavesColumns | analyze_funds.py:193-200 | since `parse_fund_data` returns the turnover text, the `in` tests are substring tests and 换手率/持股行业集中度 are never written |
| AnalyzeFunds.EnrichRowShape | analyze_funds.py:139-211 | an iteration keeps the fund and its excess returns and leaves "" or "%.2f亿元" in the scale cell |
| AnalyzeFunds.PercentRule | analyze_funds.py:131-137 | missing, "" and "获取失败" are kept; a text with "%" is judged by `float` of it without "%" (raising if that fails); other texts are dropped; numbers and lists raise |
| AnalyzeFunds.PercentText | analyze_funds.py:134-135 | a text followed by one "%" contains "%" and reads back as the text once "%" is removed |
| AnalyzeFunds.PercentRuleOf | analyze_funds.py:134-136 | a cell "<text>%" raises when the text is not a float and is otherwise judged by its value |
| AnalyzeFunds.TurnoverKeep | analyze_funds.py:131-137 | missing, "" and "获取失败" are kept; a text with "%" is kept exactly when its number reaches 200, and raises when it is not a number; a text without "%" is dropped; a number, boolean or list raises |
| AnalyzeFunds.Top10Keep | analyze_funds.py:246-252 | missing, "" and "获取失败" are kept; a text with "%" is kept exactly when its number is below 40, and raises when it is not a number; a text without "%" is dropped; a number, boolean or list raises |
| AnalyzeFunds.ExcessKeep | analyze_funds.py:260-278 | a fund whose 1-year excess is not positive is kept; one with a positive 1-year excess is kept only if its 6-, 3- and 1-month excesses are positive too |
| AnalyzeFunds.TurnoverPercent | analyze_funds.py:131-137 | a turnover "N%" is kept if and only if N is at least 200 |
| AnalyzeFunds.Top10Formatted | analyze_funds.py:246-252 | a fallback cell "%.2f%%" is kept if and only if its two-decimal value is below 40 |
| AnalyzeFunds.FirstNumRun | analyze_funds.py:233 | `re.search(r'[\d.]+')` finds the first maximal run of digits and dots, and nothing exactly when there is no such character |
| AnalyzeFunds.ScaleKeep | analyze_funds.py:219-239 | "" and "获取失败" are kept; with 亿 the value must lie in 0.2..40; else with 万 it must reach 2000; else the first run of digits and dots must lie in 0.2..40; a text that does not parse, or holds no such run, keeps the row |
| AnalyzeFunds.ScaleKeepsRendered | analyze_funds.py:219-238 | every "%.2f亿元" cell is kept, because `float("N.NN元")` raises |
| AnalyzeFunds.ApplyMask | analyze_funds.py:214-216 | a mask by `apply` raises if any cell raises, and otherwise keeps exactly the rows it accepts |
| AnalyzeFunds.Screen | analyze_funds.py:213-282 | the four filters never abort; a turnover stage that keeps no row crashes, because the next `apply` mask on the empty frame drops every column and line 255 raises KeyError; every row reported passes all four rules, and a report needs a row whose turnover is kept |
| AnalyzeFunds.ApplyMaskFilter | analyze_funds.py:213-216 | a mask that returns is the row filter of the rows it maps to `True`, in their order |
| AnalyzeFunds.TurnoverScaleStage | analyze_funds.py:213-243 | after the turnover mask, the scale filter leaves exactly the rows both rules keep, in order |
| AnalyzeFunds.ScreenReport | analyze_funds.py:213-282 | a reported screening holds exactly the rows passing all four rules, in their original order |
| AnalyzeFunds.Top10StageRaises | analyze_funds.py:253-256 | the top-10 mask over the rows the first two rules kept raises exactly when one of their top-10 cells raises |
| AnalyzeFunds.ScreenCrash | analyze_funds.py:213-256 | the screening crashes exactly when a turnover cell raises, when every turnover cell is rejected (the KeyError of the emptied frame), or when a top-10 cell raises on a row the turnover and scale rules kept |
| AnalyzeFunds.TurnoverEmpty | analyze_funds.py:213-215 | a turnover mask that returns keeps no row exactly when it rejects every turnover cell |
| AnalyzeFunds.Screened0 | analyze_funds.py:105-128 | each row entering the loop comes from the ranking, has a 6-month return, a clean name, beats the benchmarks and has an empty scale |
| AnalyzeFunds.AnalyzeFunds | analyze_funds.py:100-284 | the whole pipeline, stage by stage, gives the outcome `Analysis` defines |
| AnalyzeFunds.Analysis | analyze_funds.py:100-284 | a ranking where no row passes the 6-month, keyword and benchmark stages crashes at the scalar `.loc[:, "成立时间"] = ""` (line 124); the pipeline aborts exactly when the enrichment loop does; a report needs a non-empty frame and is exactly the enriched rows passing the four screening rules, in order |
| AnalyzeFunds.EnrichedRows | analyze_funds.py:139-211 | each reported row keeps the fund and returns of some input row and holds a scale cell the accumulation writes |
| AnalyzeFunds.ScaleFilterKeepsAll | analyze_funds.py:241-243 | the scale filter keeps every row whose cell is "" or "%.2f亿元" |
| AnalyzeFunds.ReportedRows | analyze_funds.py:100-284 | every reported row comes from the ranking, has a clean name, beats all four benchmarks with correct excess columns, and passes all four filters |
| AnalyzeFunds.ScaleStageRemovesNothing | analyze_funds.py:241-243 | in the pipeline the scale filter removes no row |
| AnalyzeFunds.MissingNameAborts | analyze_funds.py:142-145 | a missing name for a row the loop reaches ends the run with nothing written |
| FundDataProcessor.BaseName | fund_data_processor.py:59-61 | one trailing share-class letter A or C is dropped, and nothing else |
| FundDataProcessor.FindACSuffixes | fund_data_processor.py:48-74 | the first name returned ends in A and the second in C |
| FundDataProcessor.FindACKeepsOwnClass | fund_data_processor.py:68-71 | a name that already ends in A or C comes back unchanged in its own slot |
| FundDataProcessor.FindACAppends | fund_data_processor.py:72-74 | a name without a class letter gets A and C appended |
| FundDataProcessor.FindACSibling | fund_data_processor.py:64-69 | the sibling of a class-A name is its base name with C |
| FundDataProcessor.BaseNameStrips | fund_data_processor.py:59-61 | the base name is the name, or the name minus one final A or C |
| FundDataProcessor.ValuesOfGrouped | fund_data_processor.py:316 | `list(d.values())` of a well-formed dictionary lists each record once, each under its own date |
| FundDataProcessor.NameOr | fund_data_processor.py:311 | the looked-up name, or "未知" when the lookup gives nothing or "" |
| FundDataProcessor.NetAsset | fund_data_processor.py:295-297 | a missing or zero amount counts as 0, and the amount is rounded to two decimals |
| FundDataProcessor.AggregateScaleData | fund_data_processor.py:273-320 | the nested loops give the five newest date records `AggregateScale` defines |
| FundDataProcessor.AggregateScaleMeaning | fund_data_processor.py:283-320 | at most five records, distinct dates, newest first; each record's details are exactly the items of its date from the successful crawls, and its total is their sum |
| FundDataProcessor.AggregateScaleComplete | fund_data_processor.py:316-320 | a date carried by some item is in the result unless five records with dates at least as new fill it |
| FundDataProcessor.NonContributingIgnored | fund_data_processor.py:290-291 | failed, errored and empty crawls contribute nothing: dropping them does not change the result |
| FundDataProcessor.ShapeHolderRows | fund_data_processor.py:238-262 | no rows gives the failed result; otherwise the first five rows, each reduced to date, institutional ratio and total shares |
| FundDataProcessor.AddHolderItemsInPlace | fund_data_processor.py:343-394 | the inner loop folds one fund's items into the dictionary as `AddHolderItems` defines |
| FundDataProcessor.FormatRatios | fund_data_processor.py:397-398 | every ratio is written as "%.2f%%" of the stored value, the rest of the record unchanged |
| FundDataProcessor.AggregateHolderData | fund_data_processor.py:323-405 | the nested loops, the formatting loop and the sort give the five newest summaries `AggregateHolders` defines |
| FundDataProcessor.RatioIgnoresPercent | fund_data_processor.py:347 | a trailing "%" makes no difference to the ratio read |
| FundDataProcessor.DashesReadAsZero | fund_data_processor.py:348-350 | a text that is not a number, such as "---", reads as 0 |
| FundDataProcessor.FormattedRatioRoundTrip | fund_data_processor.py:398 | the formatted ratio reads back as the ratio rounded to two decimals |
| FundDataProcessor.WeighAllRounded | fund_data_processor.py:380-385 | after at least one update the ratio is a whole number of hundredths |
| FundDataProcessor.HolderGroupsAt | fund_data_processor.py:339-394 | a date has a record exactly when it received a pair, and the record holds the updates over those pairs |
| FundDataProcessor.HolderGroupsWellFormed | fund_data_processor.py:358-366 | the dictionary lists every date once and stores each record under its own date |
| FundDataProcessor.InAggregateHolders | fund_data_processor.py:401-405 | every aggregated record is the summary of the group stored under its date |
| FundDataProcessor.AggregateHoldersEach | fund_data_processor.py:339-405 | each aggregated record's ratio reads back as the weighted update over the pairs of its date |
| FundDataProcessor.SummaryReadsBack | fund_data_processor.py:398 | a record updated at least once shows a ratio that reads back exactly |
| FundDataProcessor.AggregateHoldersMeaning | fund_data_processor.py:333-405 | at most five records, distinct dates, newest first; each ratio reads back and ratio and shares are the weighted updates over exactly the pairs of that date |
| FundDataProcessor.ExactMean | fund_data_processor.py:368-385 | without rounding and with non-negative shares, the shares are the total and the ratio is the share-weighted mean (the latest ratio while shares are 0) |
| FundDataProcessor.MeanBetween | fund_data_processor.py:374-377 | a weighted mean of two ratios in a range stays in the range |
| FundDataProcessor.RoundedMeanBounds | fund_data_processor.py:368-385 | with the code's rounding, ratios between two two-decimal bounds give an aggregate ratio between them, and shares never go negative |
| FundDataProcessor.FreshInDays | fund_data_processor.py:523-525 | the time of day never matters: the cache is fresh exactly when fewer than `cache_days` calendar days have passed |
| FundDataProcessor.StoredUpdateTime | fund_data_processor.py:518-522 | an update time is found exactly when the file holds an object whose entry for the code is an object with a string 更新时间 |
| FundDataProcessor.UseCache | fund_data_processor.py:511-529 | the function returns early exactly when the stored time parses as a date that is fresh; any exception falls through to a refetch |
| FundDataProcessor.UpdateFundData | fund_data_processor.py:408-437 | fails exactly when the existing entry is not an object; otherwise it adds no other code and keeps the others; the entry is an object holding its old keys plus 基金名称, 规模数据, 持有人结构 and 更新时间, set to the name, the two aggregates and today's date, with every other old key kept |
| FundDataProcessor.CacheAfterUpdate | fund_data_processor.py:432-437 | data written today is reused exactly while fewer than `cache_days` days have passed |
| FundSearchParser.ErrorCode | fund_search_parser.py:28-33 | an error reply, and only an error reply, has an error code; a failed request has code -1 |
| FundSearchParser.UnwrapJsonp | fund_search_parser.py:22-24 | a body found is line-free and is what lies between the first '(', with no '(' before it, and a ')' that ends the text |
| FundSearchParser.UnwrapJsonpIff | fund_search_parser.py:22-24 | the JSONP pattern gives body `b` if and only if the stripped text is a prefix without '(' followed by `(b)` at the very end, and `b` has no line break |
| FundSearchParser.UnwrapJsonpOf | fund_search_parser.py:22-25 | wrapping a body without line breaks in a callback and unwrapping it gives the body back |
| FundSearchParser.Interpret | fund_search_parser.py:27-45 | a missing ErrCode counts as 0; a non-zero ErrCode gives the error reply with ErrMsg or "未知错误"; with ErrCode 0 the reply raises exactly when Datas (default []) cannot be iterated as dictionaries, and otherwise returns the hits, one per entry of Datas, in order (a list of dictionaries always returns); a non-object reply raises |
| FundSearchParser.Project | fund_search_parser.py:36-45 | one hit per Datas entry, same length and order, each `{code: CODE, name: NAME}` |
| FundSearchParser.ParseResponse | fund_search_parser.py:17-45 | text that decodes as JSON is interpreted directly; otherwise the JSONP body is decoded and interpreted; no body, or a body that does not decode, raises |
| FundSearchParser.FetchAndParse | fund_search_parser.py:66-75 | the fetch never raises: a failed request or a parse exception becomes the error reply with code -1, otherwise the parsed reply |
| FundSearchParser.DirectJson | fund_search_parser.py:17-19 | text that is valid JSON is interpreted directly, never unwrapped |
| FundSearchParser.JsonpFallback | fund_search_parser.py:20-25 | text that is not JSON is read through its callback body, and raises when that body does not decode |
| FundSearchParser.MultiLineJsonpRejected | fund_search_parser.py:22-24 | a wrapped body spanning lines raises the ValueError, which the fetch reports as a failed request |
| FundSearchParser.GarbageIsRequestFailure | fund_search_parser.py:22-24 | text that is neither JSON nor a callback wrapper makes the fetch return error code -1 |
| JiuquanFund.UnitRun | jiuquan_fund.py:78 | the length of the longest prefix made of the unit characters 万亿千百十% |
| JiuquanFund.FirstDigit | jiuquan_fund.py:78-79 | the position of the first digit, or the length when there is none |
| JiuquanFund.NumberLength | jiuquan_fund.py:78 | a match at a digit is non-empty and never runs past the text |
| JiuquanFund.ExtractNumeric | jiuquan_fund.py:77-83 | text without a digit comes back unchanged; otherwise the result starts at the first digit, has the number shape (digits, an optional '.' and digits, then units) and is greedy: no part of it can be extended by the text that follows |
| JiuquanFund.NumberLengthShape | jiuquan_fund.py:78 | the match has the number shape and is greedy: the whole part, the fraction and the unit run are each followed by no character that would extend them |
| JiuquanFund.NumberLengthGreedy | jiuquan_fund.py:78 | the digit run is followed by no digit, a whole part alone by no '.' and digit, a fraction by no digit, the units by no unit |
| JiuquanFund.GreedyUnique | jiuquan_fund.py:78-82 | a number-shaped prefix that cannot be extended is exactly the match: the greedy match is unique |
| JiuquanFund.ExtractNumericOnly | jiuquan_fund.py:77-82 | conversely, a number-shaped greedy text starting at the first digit is what the extractor returns, so its contract determines the result |
| JiuquanFund.ExtractAfterPrefix | jiuquan_fund.py:79-82 | text before the first digit is skipped |
| JiuquanFund.ExtractExample | jiuquan_fund.py:72 | "基金最新一期规模5692.07万" gives "5692.07万" |
| JiuquanFund.ExtractNumericValue | jiuquan_fund.py:74-75 | a value that is not a string is returned unchanged, a string is extracted |
| JiuquanFund.LastQualifyingIff | jiuquan_fund.py:172-176 | the turnover found is the info of a tag whose left_title holds "换手率" and that no such tag follows; none is found exactly when no tag qualifies |
| JiuquanFund.LastQualifyingAppend | jiuquan_fund.py:170-176 | later tags overwrite earlier ones |
| JiuquanFund.ScanTags | jiuquan_fund.py:172-176 | the tag loop raises exactly when some left_title cannot be searched, and otherwise ends with the last qualifying info or the value it started with |
| JiuquanFund.ParseFundDetails | jiuquan_fund.py:159-178 | the feature walk equals the reference outcome; no qualifying tag means the KeyError of line 178 |
| JiuquanFund.WalkFeatures | jiuquan_fund.py:169-176 | only the tags of "持仓特征" features are scanned, in order; a tag list that does not iterate raises |
| JiuquanFund.HoldingTagsFails | jiuquan_fund.py:173-175 | a title that cannot be searched inside a holding feature makes the walk raise |
| JiuquanFund.ParseFundData | jiuquan_fund.py:99-156 | `None` for a failed request, an empty reply, a reply not starting with '{' or '[', undecodable JSON, a code other than 0, or an exception of the walk; otherwise the turnover value; and a reply that starts like JSON, decodes to an object with code 0 and "data", and whose walk succeeds, gives exactly the walk's value |
| FundScaleCrawler.SpaceRun | fund_scale_crawler.py:44 | the longest all-whitespace prefix, stopped by the first non-space |
| FundScaleCrawler.CaptureHere | fund_scale_crawler.py:44 | a capture is a bracketed text, holding no ']' inside, that occurs in the reply |
| FundScaleCrawler.DataCapture | fund_scale_crawler.py:44-45 | the leftmost capture; `None` exactly when the pattern matches at no position, and the capture stops at the first ']' |
| FundScaleCrawler.Entry | fund_scale_crawler.py:59-62 | 期末净资产 is None exactly when NETNAV is falsy, and NETNAV/10^8 rounded to two places otherwise |
| FundScaleCrawler.Entries | fund_scale_crawler.py:59-62 | one record per item, in order, or the exception of the first item that cannot be converted |
| FundScaleCrawler.Crawl | fund_scale_crawler.py:36-87 | a raised request is 'error', no capture is 'failed', and a success holds one to five records sorted by 日期 descending |
| FundScaleCrawler.CrawlSuccess | fund_scale_crawler.py:57-72 | a success holds the five newest records of the decoded array |
| FundScaleCrawler.EmptyArrayFails | fund_scale_crawler.py:57-79 | an empty array is 'failed', never an empty success |
| StyleExtraction.FormatHasNoSpace | complete_fund_style_extraction.py:47 | a written date has no space, so cutting the stamp at the first space leaves the date |
| StyleExtraction.IsTodayOfFormatted | complete_fund_style_extraction.py:26-28 | a written date is today's exactly when it is today |
| StyleExtraction.IsToday | complete_fund_style_extraction.py:14-30 | empty text, or text strptime refuses, is never today |
| StyleExtraction.UpdateTime | complete_fund_style_extraction.py:45-46 | the stamp is found exactly when `_metadata` is a dictionary holding a string `update_time` |
| StyleExtraction.LoadCached | complete_fund_style_extraction.py:32-57 | the decoded file is returned exactly when it is an object whose stamp, cut at the first space, is today's date; every other case gives None |
| StyleExtraction.LoadStamped | complete_fund_style_extraction.py:45-49 | a file stamped on a day, at any hour, loads back on that day and on no other |
| StyleExtraction.CachedSubset | complete_fund_style_extraction.py:77-83 | a cache hit returns exactly the requested cached codes, each with its cached entry |
| StyleExtraction.CachedSubsetIff | complete_fund_style_extraction.py:77-79 | the cache is used exactly when the requested codes are distinct and all cached; a repeated code forces a refetch |
| StyleExtraction.CachedStyleFactors | complete_fund_style_extraction.py:73-88 | no browser is opened exactly when the cache was written today and holds every requested code, none repeated; the answer is then the cached subset |
| StyleExtraction.Top10At | complete_fund_style_extraction.py:193 | a match starts with 前10占比 and captures a digit, then digits and '.', followed by the '%' |
| StyleExtraction.Top10SearchAt | complete_fund_style_extraction.py:193 | the search stops at the leftmost position that matches, and finds nothing only when no position does |
| StyleExtraction.Top10ShareBounds | complete_fund_style_extraction.py:193-195 | text without 前10占比 has no share, and a share found is never negative |
| StyleExtraction.Top10ShareAfter | complete_fund_style_extraction.py:193-195 | the share is float of the first group after the label |
| StyleExtraction.Top10ShareReadsBack | complete_fund_style_extraction.py:193-195 | a share written with two decimals reads back as its value rounded to two places |
| StyleExtraction.Abs | complete_fund_style_extraction.py:309 | the absolute difference is non-negative and equals the difference or its negation |
| StyleExtraction.Differences | complete_fund_style_extraction.py:300-313 | one difference per index that has the factor, never more than indices |
| StyleExtraction.FirstMin | complete_fund_style_extraction.py:319 | `min` picks the first of the smallest differences |
| StyleExtraction.DifferencesEmpty | complete_fund_style_extraction.py:317 | there is nothing to compare exactly when no index has the factor |
| StyleExtraction.ClosestWitness | complete_fund_style_extraction.py:316-320 | the chosen index is nearest of all and strictly nearer than every earlier candidate, so ties go to the first |
| StyleExtraction.ClosestMeaning | complete_fund_style_extraction.py:298-320 | no index is chosen exactly when none has the factor; otherwise the chosen one has it and minimises the absolute difference |
| StyleExtraction.Closest | complete_fund_style_extraction.py:298-320 | no index is chosen exactly when no index has the factor |
| StyleExtraction.ComputeDifferences | complete_fund_style_extraction.py:300-313 | the loop over the indices computes the differences of one factor |
| StyleExtraction.MatchFund | complete_fund_style_extraction.py:295-327 | the per-fund loops compute the factors some index has, each with its nearest index |
| StyleExtraction.FindSimilarIndex | complete_fund_style_extraction.py:277-329 | the loops compute the reference result of `find_similar_index` |
| StyleExtraction.SimilarKeys | complete_fund_style_extraction.py:277-292 | every fund except `_metadata` appears in the result, and nothing else |
| StyleExtraction.SimilarAll | complete_fund_style_extraction.py:277-292 | the metadata entry `_metadata` never becomes a fund of the result |
| StyleExtraction.SimilarEntry | complete_fund_style_extraction.py:284-292 | each fund's entry has its name, "基金(code)" by default, and factors computed from that fund alone |
| StyleExtraction.MatchFactorsMeaning | complete_fund_style_extraction.py:316-327 | a factor is in the entry exactly when some index has it, and keeps the fund's 基金值 and 同类平均 with the nearest index's name |
| StyleExtraction.MatchFactorsKeys | complete_fund_style_extraction.py:298-327 | no factor enters an entry unless the fund has it |
| EnhancedIndex.KeywordLoop | enhanced_index.py:31-33 | the keyword loop leaves exactly the rows whose name holds none of the 10 keywords, in order |
| EnhancedIndex.SortBy | enhanced_index.py:50 | the descending sort keeps the number of rows |
| EnhancedIndex.SortByFacts | enhanced_index.py:50 | the sorted rows are in descending order of the column, NaN last, and are a permutation of the input |
| EnhancedIndex.ItemValue | enhanced_index.py:42-45 | the value of the first item with that name, and none exactly when no item has it |
| EnhancedIndex.Enriched | enhanced_index.py:35-47 | both new cells start empty and take the provider's values when it answers with them; the other cells are unchanged |
| EnhancedIndex.Enrich | enhanced_index.py:38-48 | the loop enriches every row in place, one for one |
| EnhancedIndex.EnrichAllMembers | enhanced_index.py:38-48 | the enriched rows are exactly the enrichments of the input rows |
| EnhancedIndex.WithColumn | enhanced_index.py:35-36 | the added column is present and no other is added |
| EnhancedIndex.SelectEligible | enhanced_index.py:25-33 | the survivors are the rows whose name contains the fund type and "C", that have 近6月, and whose name holds no keyword |
| EnhancedIndex.EnrichAndSort | fund_app.py:34-50 | the two columns are added with `fund_df[col] = ""`, and the enriched rows come out sorted by 近6月 descending, as a permutation; nothing goes missing, and an empty frame stays empty |
| EnhancedIndex.FetchFundData | enhanced_index.py:20-50 | the fetch raises exactly when no row is eligible (the scalar `.loc` assignment of line 35 on an empty frame); otherwise the result is exactly the eligible rows, enriched, in descending order of 近6月 |
| EnhancedIndex.FetchSmallFundData | enhanced_index.py:52-78 | the fetch raises exactly when no listed fund is ranked (line 63); otherwise the result is exactly the listed funds' rows, enriched and sorted by 近6月 descending |
| EnhancedIndex.BestBelow | enhanced_index.py:95 | the first largest candidate among the first positions, or none when there is no candidate |
| EnhancedIndex.NLargest | enhanced_index.py:95 | `nlargest(k)` picks at most k positions |
| EnhancedIndex.NLargestWithin | enhanced_index.py:95 | only positions with a value are picked |
| EnhancedIndex.NLargestDistinct | enhanced_index.py:95 | no position is picked twice |
| EnhancedIndex.NLargestCount | enhanced_index.py:95 | k positions are picked, or every candidate when there are fewer |
| EnhancedIndex.NLargestFirst | enhanced_index.py:95 | every picked position is ahead of every candidate left out, the earlier row winning a tie |
| EnhancedIndex.NLargestOrdered | enhanced_index.py:95 | the picked positions come out best first |
| EnhancedIndex.TopTenMeaning | enhanced_index.py:95 | the top ten of a column: distinct rows with a value, min(10, count of values) of them, best first, each ahead of every row left out |
| EnhancedIndex.TopCountColumns | enhanced_index.py:89-100 | a row's count is the number of ranked columns whose top ten holds it |
| EnhancedIndex.MarkColumn | enhanced_index.py:97 | marking a top ten keeps one style map per row |
| EnhancedIndex.CountTop | enhanced_index.py:99-100 | each row's count grows by how often it occurs in the top ten |
| EnhancedIndex.YellowPass | enhanced_index.py:92-100 | after the column loop, the styles mark the top tens and each row's count is its number of top tens |
| EnhancedIndex.GoldPass | enhanced_index.py:103-106 | a row counted at least five times gets a gold name cell; nothing else changes |
| EnhancedIndex.Highlight | enhanced_index.py:80-108 | every cell is styled as the gold, yellow and empty rules say |
| EnhancedIndex.YellowAt | enhanced_index.py:92-97 | a return cell is yellow exactly when its row is in that column's top ten |
| EnhancedIndex.YellowCells | enhanced_index.py:92-97 | the yellow cells of a return column are its top ten: min(10, count of values) of them |
| EnhancedIndex.GoldAt | enhanced_index.py:103-106 | a name cell is gold exactly when the row's count is at least five |
| EnhancedIndex.GoldCells | enhanced_index.py:99-106 | a name cell is gold exactly when the row is in the top ten of at least five return columns |
| EnhancedIndex.PlainCells | enhanced_index.py:83 | a cell that is neither a return column nor 基金简称 keeps the empty style |
| EnhancedIndex.SaveToExcel | enhanced_index.py:110-114 | an empty frame writes no sheet; any other adds one sheet with its highlighted styles |
| EnhancedIndex.FirstBare | enhanced_index.py:144-146 | the position of the first fund type without an eligible row, every type before it having one, or the number of types when none lacks one |
| EnhancedIndex.WriteTypeSheets | enhanced_index.py:144-147 | the loop raises exactly when some fund type has no eligible row; the sheets written are those of the types before the first such type, in order, named "{type}基金" and holding that type's rows |
| EnhancedIndex.WriteSheets | enhanced_index.py:144-147 | for any list of fund types, one sheet per type up to the first type without an eligible row, where the loop raises; each sheet the one `SheetFor` describes |
| EnhancedIndex.AddTypeSheet | enhanced_index.py:145-147 | one turn of the loop raises exactly when the type has no eligible row, leaving the book as it was, and otherwise adds the type's sheet |
| EnhancedIndex.UpdateFundData | enhanced_index.py:137-157 | the update raises exactly when some fund type has no eligible row or no listed fund is ranked; the sheets before the first raising fetch are written, and nothing after it: no 小微盘 sheet and no widths; otherwise six sheets, the last the 小微盘 sheet (highlighted, the two added columns, sorted by 近6月 descending, exactly the listed funds' enriched rows), and every column of every sheet gets its capped width |
| EnhancedIndex.Longest | enhanced_index.py:124-131 | the longest `str()` among the counted cells: every one fits, and some one reaches it |
| EnhancedIndex.ColumnWidth | enhanced_index.py:124-132 | the cell loop computes min(longest truthy cell + 2, 50) |
| EnhancedIndex.WidthBounds | enhanced_index.py:132 | a width lies in [2, 50]; it is 50 exactly when a truthy cell shows 48 characters or more; below 50 every truthy cell fits with two to spare |
| EnhancedIndex.AdjustColumnWidth | enhanced_index.py:116-135 | every column of every sheet gets its capped width |
| FundApp.ColumnWidth | fund_app.py:103-111 | the cell loop computes 2 + the longest `str()` over all cells |
| FundApp.UncappedMeaning | fund_app.py:102-111 | every cell fits with two to spare, some cell fits exactly, and a column with a missing value is at least six wide ("None") |
| FundApp.LongestWider | fund_app.py:105-108 | counting more cells never shortens the longest |
| FundApp.CappedAtMost | fund_app.py:107-111 | the width here is never below the capped index-workbook width, and equals it when all cells are truthy and it is under 50 |
| FundApp.FetchFundData | fund_app.py:19-50 | the result is exactly the eligible rows, enriched, in descending order of 近6月, and empty exactly when no row is eligible, since `fund_df[col] = ""` accepts an empty frame |
| FundApp.TypesWritten | fund_app.py:93-96 | the fund types that get a sheet are at most the five types |
| FundApp.WriteTypeSheets | fund_app.py:93-96 | one sheet per fund type with eligible rows, in order, named "{type}基金" and holding that type's rows |
| FundApp.WriteSheets | fund_app.py:93-96 | for any list of fund types, the sheets written are those of the types with eligible rows, in order, each sheet the one `SheetFor` describes |
| FundApp.AddTypeSheet | fund_app.py:94-96 | one turn of the loop adds the type's sheet exactly when it has eligible rows and leaves the book as it was otherwise |
| FundApp.UpdateFundData | fund_app.py:87-112 | one sheet per fund type with eligible rows, in order, then each column of each sheet gets its uncapped width |
| FundApp.SheetWidths | fund_app.py:102-112 | each column of a sheet gets the width its longest cell text asks for, plus two |
| ProcessJiuquaner.Zeros | process_jiuquaner.py:15 | n zero characters |
| ProcessJiuquaner.ZFillShape | process_jiuquaner.py:15 | a padded code is six long unless it was longer, a long one is unchanged, and an unsigned one ends with the original behind zeros only |
| ProcessJiuquaner.ZFill | process_jiuquaner.py:15 | `zfill` gives `width` characters unless the text was longer, and a leading sign stays in front |
| ProcessJiuquaner.ZFillKeepsInteger | process_jiuquaner.py:15-25 | padding a digit code keeps its `int()` value |
| ProcessJiuquaner.ParseDigits | process_jiuquaner.py:25 | `int()` of a plain digit string is its value |
| ProcessJiuquaner.PaddedDigits | process_jiuquaner.py:15 | a padded digit code is still a digit code with the same value |
| ProcessJiuquaner.TableMeaning | process_jiuquaner.py:23-27 | a key is in the table exactly when some row's code reads as it, and its name is that of the last such row |
| ProcessJiuquaner.Table | process_jiuquaner.py:23-27 | the code-to-name dictionary; no contract of its own, since one makes the proofs about it unstable: `TableMeaning` states its keys and names, `BuildTable` the loop that fills it |
| ProcessJiuquaner.TableStep | process_jiuquaner.py:24-27 | one more row writes its code's name, or raises when the code is not an integer |
| ProcessJiuquaner.BuildTable | process_jiuquaner.py:23-27 | the loop raises exactly when some code is not an integer, and otherwise builds the table |
| ProcessJiuquaner.ProcessWithFundNames | process_jiuquaner.py:4-47 | each watch-list code gets its six-digit code and its name, "未找到" when none matches; found and not-found counts add up to the number of rows |
| ProcessJiuquaner.PadCodes | process_jiuquaner.py:15 | every provider code is padded with zeros to six digits, names kept, order kept |
| ProcessJiuquaner.NameRows | process_jiuquaner.py:30-38 | one output row per watch-list code, in order, each the six-digit code and the name the table gives it |
| ProcessJiuquaner.NameForMeaning | process_jiuquaner.py:30-35 | a code is named after the last listed fund whose code reads as the same integer, whatever its leading zeros, and "未找到" when none does |
| ParseDrawdownData.RetryOnNetworkError | parse_drawdown_data.py:9-31 | no call when max_retries ≤ 0; otherwise 1 to max_retries calls, every earlier one a reset-connection URLError; the result is the last call's value, or its exception when that is not a reset or the budget is used up |
| ParseDrawdownData.ParseDrawdown | parse_drawdown_data.py:34-97 | the cell loop computes the drawdown dictionary of the page, or `{}` on any failure |
| ParseDrawdownData.Drawdown | parse_drawdown_data.py:34-97 | at most eight entries, the k-th keyed by the period after the k-th, with or without a browser |
| ParseDrawdownData.DrawdownShape | parse_drawdown_data.py:65-97 | at most eight entries, keyed by the periods after the first in order, all distinct and never "本基金", one per cell read; `{}` when the table, the row or a cell is missing |
| ParseDrawdownData.SampleShape | parse_drawdown_data.py:82-91 | without a browser, the seven sample periods |
| ParseDrawdownData.ParseDrawdownWithRetry | parse_drawdown_data.py:33-97 | the decorated parser catches everything, so it is called once and its dictionary is returned |
| SimuwangBrowserStable.Quit | simuwang_browser_stable.py:438-443 | an unset driver stays unset, and a set one is no longer alive after `quit()` |
| SimuwangBrowserStable.RecordShape | simuwang_browser_stable.py:377-393 | a record has exactly the five keys: the interval as text and each figure under "百分比" |
| SimuwangBrowserStable.Records | simuwang_browser_stable.py:359-396 | one record per row, in order |
| SimuwangBrowserStable.StageStep | simuwang_browser_stable.py:361-396 | one more row adds its record exactly when it has at least five cells |
| SimuwangBrowserStable.ReadStageRows | simuwang_browser_stable.py:357-396 | the row loop computes the reference record list, or raises when a cell of a kept row is missing |
| SimuwangBrowserStable.DataListMeaning | simuwang_browser_stable.py:359-396 | the read succeeds exactly when every row of five or more cells has its texts; then one record per such row, never more than rows, each with the five keys |
| SimuwangBrowserStable.PairsObjectMeaning | simuwang_browser_stable.py:425 | with distinct keys, the drawdown dictionary holds each period's text under its key, and nothing else |
| SimuwangBrowserStable.Merge | simuwang_browser_stable.py:406-429 | the merge succeeds exactly when the file is a dictionary whose entry for the code, if any, is one too; it rewrites only 区间收益 and 回撤数据 of that entry |
| SimuwangBrowserStable.ExtractResult | simuwang_browser_stable.py:297-436 | the file changes only by that merge and only on success; extraction fails without a live browser, the table or a full read; a successful non-empty read writes the merge, and an empty read returns without writing |
| SimuwangBrowserStable.ExtractKeepsOthers | simuwang_browser_stable.py:406-429 | extracting one code leaves every other code's entry as it was |
| SimuwangBrowserStable.SkippedUntouched | simuwang_browser_stable.py:466-474 | a code whose search fails keeps its entry, whatever else is queried |
| SimuwangBrowserStable.LaterCodesKeep | simuwang_browser_stable.py:466-474 | codes queried after the last query of a code leave its entry as that query left it |
| SimuwangBrowserStable.FoundRecordsStored | simuwang_browser_stable.py:406-474 | a found code whose records are read in full, are not empty and merge ends the run with those records and its drawdown in its entry, unless it is queried again |
| SimuwangBrowserStable.SimuwangBrowser.constructor | simuwang_browser_stable.py:52-69 | a browser with no driver and the settings file, `{}` when it is absent or unreadable |
| SimuwangBrowserStable.SimuwangBrowser.OpenSimuwang | simuwang_browser_stable.py:71-102 | the open succeeds exactly when the browser starts and the page loads; a browser that fails to load is quit, and one that fails to start leaves the previous driver, quit |
| SimuwangBrowserStable.SimuwangBrowser.Close | simuwang_browser_stable.py:438-443 | the driver, if set, is quit, and nothing else changes |
| SimuwangBrowserStable.SimuwangBrowser.ExtractData | simuwang_browser_stable.py:297-436 | the result and the file afterwards are those of the reference extraction on the driver now set, so a successful non-empty read writes the merge and an empty one writes nothing |
| SimuwangBrowserStable.Simuwang | simuwang_browser_stable.py:446-483 | nothing is queried when the site does not open, login fails or the argument is neither a string nor a list; otherwise the file is that after each found code in turn; the browser is always closed |
| MainScript.SetNearest | main.py:68-71 | setting one factor keeps every key of the entry and of its 风格因子, changes only that factor's 近似指数, and leaves an entry without the factor as it was |
| MainScript.EntryNearestMeaning | main.py:67-71 | a factor ready in the entry ends with the index listed for it, and a factor not listed keeps its value |
| MainScript.NearestAllMeaning | main.py:64-71 | the merge adds no code and changes only the entries of codes in the similar-index result, each by the inner loop |
| MainScript.NearestAll | main.py:64-71 | the merge of nearest indices, when it succeeds, adds and removes no code |
| MainScript.UpdateEntry | main.py:67-71 | the inner loop over one code's factors computes the reference update, stopping at the first exception |
| MainScript.AddNearest | main.py:64-71 | the loop over the similar-index result computes the reference merge |
| MainScript.TurnoverMeaning | main.py:73-74 | the turnover loop succeeds exactly when every code is in the file with a dictionary entry; it then gives every code its turnover and changes nothing else |
| MainScript.TurnoverAll | main.py:73-74 | the turnover loop, when it succeeds, adds and removes no code, and every listed code was in the file and now holds its turnover |
| MainScript.AddTurnover | main.py:73-74 | the loop over the watch-list codes computes the reference turnover update |
| MainScript.UpdateFundFile | main.py:60-77 | the file is written exactly when both updates succeed, and is then their composition |
| MainScript.UpdateMeaning | main.py:64-77 | the update keeps the file's codes, gives every watch-list code its turnover, and raises when a watch-list code is missing |
| Common.Filter | analyze_funds.py:105 | a pandas row mask: the rows kept are exactly those satisfying the predicate, no more of them than before |
| Common.CountSplit | process_jiuquaner.py:46-47 | counting a predicate and its negation together counts every row |
| Common.RemoveCharMembers | analyze_funds.py:135 | `s.replace(c, "")` leaves no `c` and every other character of `s` |
| Common.StripNoop | jiuquan_fund.py:117 | a string with no whitespace at either end is its own `strip()` |
| Json.Get | fund_search_parser.py:28 | `d.get(k, default)`: the value under `k`, or the default when `k` is absent |
| Json.PyIn | main.py:68-69 | `needle in v`: a substring test on a string, a key test on a dictionary, a member test on a list, and a TypeError on anything else |
| Json.IterDicts | jiuquan_fund.py:169-173 | iterating a list and calling `.get` on each element succeeds exactly when every element is a dictionary |
| Decimal.ParseInt | process_jiuquaner.py:25 | `int(s)` agrees with `float(s)` wherever it succeeds |
| Decimal.Round2 | fund_scale_crawler.py:61 | `round(x, 2)` is within half a hundredth of `x` and keeps a non-negative value non-negative |
| Decimal.Round2Idempotent | fund_data_processor.py:308 | rounding twice is rounding once |
| Decimal.Round2Monotone | fund_data_processor.py:380 | rounding never reverses an order |
| Decimal.Fmt2RoundTrip | analyze_funds.py:181-186 | reading `"%.2f" % x` back with `float` gives `round(x, 2)` |
| Decimal.ParseFloatRejectsSuffix | analyze_funds.py:233-238 | `float` raises on text ending in a character that is neither whitespace, a digit nor '.', such as "12.30元" |
| Dates.ParseYmd | complete_fund_style_extraction.py:27 | strptime with "%Y-%m-%d" accepts only valid dates, with '-' after the year |
| Dates.ParseFormat | complete_fund_style_extraction.py:241 | what strftime writes, strptime reads back |
| Dates.OrdinalNextDay | fund_data_processor.py:523-525 | consecutive days of a month have consecutive day numbers |
| Dates.OrdinalNextMonth | fund_data_processor.py:523-525 | the first of a month follows the last day of the month before |
| Sorting.StrLtTrichotomy | fund_scale_crawler.py:65 | Python's string order is total |
| Sorting.StrLtTransitive | fund_scale_crawler.py:65 | Python's string order is transitive |
| Sorting.SortDescSorted | fund_scale_crawler.py:65 | `sort(key=日期, reverse=True)` leaves the records in descending order of date |
| Sorting.SortDescPermutes | fund_scale_crawler.py:65 | the sort is a permutation of its input |
| Sorting.SortDescDistinct | fund_data_processor.py:317 | sorting keeps distinct dates distinct |
| Sorting.NewestShape | fund_scale_crawler.py:65-66 | the newest five are sorted descending, at most five, and drawn from the input |
| Sorting.NewestDistinct | fund_data_processor.py:317-320 | keeping the newest five keeps distinct dates distinct |
| Sorting.NewestKeepsNewest | fund_data_processor.py:317-320 | whatever is cut off is no newer than the last record kept |

## Left out

- Network requests, Selenium browsing, Excel and file I/O, sleeps, progress bars and console output. Provider replies, page contents and file contents are inputs; files written are outputs.
- Login and `search_fund` of the Simuwang browser talk to the site: their outcomes are inputs (`loggedIn`, `found`). The settings file read by `load_config` is kept but used by nothing else in the model.
- Floating point: numbers are exact reals. `round` is round-half-even on the exact value, and `"%.2f"` is the sign plus the rounded hundredths. Binary representation error, `nan` and `inf` are not modelled.
- `float()` and `int()` accept a subset of Python's syntax: surrounding whitespace as Python's `str.isspace()` defines it, a sign, and ASCII digits with at most one '.'. Exponents, underscores and `inf`/`nan` are read as a `ValueError`. `\d` matches ASCII digits only.
- pandas `str.contains` is modelled as a substring test. None of the fragments used holds a pattern character.
- pandas' `sort_values` is not stable on ties, while the model's sort is stable.
- `pd.isna` on a list-valued cell raises in the model; strings, numbers and missing values are modelled.
- A non-string `FSRQ` date is read as a failed conversion.
- Cells that go through Excel and are read back are typed as the model's cell values. pandas' type inference on that read is not modelled.
- The column-width rules take the cells as the writer puts them, through a `render` parameter; openpyxl's own conversion is not modelled.
- The byte decoding of replies (utf-8, gbk, ignore) is left out: replies are text.
- The HTML regular expressions of the page scrapers are not modelled. This covers the style-factor rows of `extract_fund_style_factors` and the holder-table cells of `crawl_fund_cyrjg_data`. Their results are inputs, typed as fund and index entries.
- `find_similar_index` takes typed entries: a missing `基金值` (KeyError) and non-numeric factor values are not modelled. Dictionary order is the order of the input sequences.
- The orchestration of `process_fund_data`, of `update_fund_data` across providers, the Flask routes and the scheduler are left out; only the rules they call are modelled.
- `main.py` is modelled only for its two merge loops and the write, with steps 1-2 as inputs. `fund_data` is the decoded dictionary, and `similar_index_data` is a sequence of typed items in iteration order. The `process_fund_data` loop (main.py:81-85) and the `simuwang` call (main.py:92) only orchestrate modelled parts.
- The gold rule follows the code (at least five columns); the messages of the workbook jobs say four.
- Delays of the retry decorator are not modelled; only the number of calls is.
- When `update_fund_data` of the index-fund workbook raises, the model gives the sheets written before the exception. What the `ExcelWriter`'s exit then saves is not modelled, nor openpyxl's own error for a workbook without sheets.
- ProcessJiuquaner.Table: carries no `ensures` of its own. Any postcondition on this recursive function doubled the cost of the lemmas that unfold it, and made that cost vary widely with the solver seed. Its keys and names are stated by `TableMeaning`.
