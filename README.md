# Nginx log analyser and decorator exercises, modelled in Dafny

This project models the core of a small Python repository.

`log_analyzer.py` reads the latest nginx access log and reports, per URL, how many requests it
served and how long they took. The model covers:

- **choosing the log file**: `select_last_logfile`, with its file-name pattern, the calendar check
  `datetime.date` applies and the early stop on a file dated today;
- **parsing one line**: `parse_logfile_line` and `logfile_line_pattern`, as a grammar (`Layout`,
  `Grammar`, `Render`) with a deterministic parser proved sound and complete against it;
- **the per-line loop of `parse_logfile`**: one item per line, `None` where the parser refuses;
- **the statistics**: `get_logfile_stats` as an imperative method over Python's own variables and
  dictionaries, proved equal to a reference definition `Report`. The facts `Report` promises are
  lemmas: when each error is raised, what every row holds, that the table is the top
  `result_size` URLs with ties in first-seen order, and that the counts add up;
- **the report name**: `report_date`, with its inverse.

`deco.py` defines the decorators `countcalls`, `memo`, `n_ary` and `trace`, and decorates `foo`,
`bar` and `fib` with them. Each decorated function that keeps state (`calls`, the memo `vault`,
the trace `count`) is a class whose `Call` method updates that state. The memo key
`str(args) + str(kwargs)` is modelled by `PyRepr.Key` and proved injective by reading it back
(`PyRepr.ParseKey`). `fib` is split into one method per decorator layer. It is proved against
reference runs (`CallRun`, `CacheRun`, `BodyRun`) that state how many calls are counted, what is
cached and which trace lines are printed.

Modules:
- `Wrappers`: `Option`, `Result`.
- `Chars`: character classes and decimal digits.
- `Dates`: `datetime.date` validity and ordering.
- `Selector`, `LineParser`, `Statistics` (sum, max, median), `Ranking` (the stable descending
  sort), `Aggregator`, `StatsFacts` and `Report`: the parts of `log_analyzer.py`.
- `PyRepr` and `Deco`: the parts of `deco.py`.

Things the program takes from the outside are parameters:
- `datetime.date.today()` is `today`;
- the directory listing is the sequence of names;
- the lines of the log file are a sequence of strings;
- the `.3f` formatting round trip is a function `round: real -> real`.

## Model

| member | source | states |
|---|---|---|
| Selector.MatchName | log_analyzer.py:118-130 | A name matches exactly when its body (the name without one final newline, which `$` allows) fits the pattern. The year, month and day groups are then the values `int` gives the digits at their positions in the body. The year is 1900..2099, the month at most 19 and the day at most 39. The extension group is `.gz` exactly when the body has 31 characters. |
| Selector.Candidate | log_analyzer.py:123-143 | A name counts exactly when it matches and its digits form a real calendar date. Otherwise the `try` skips it. A counted name keeps its own path. Its date is the one the name's year, month and day digits spell, a valid date with year 1900..2099. It is GZIP exactly when it ends in `.gz`. |
| Selector.NameGroups | log_analyzer.py:118-130 | For any matching name, with or without the final newline `$` allows, the match holds the values of the digit groups at positions 20-23, 24-25 and 26-27 of its body. |
| Selector.LogNameRoundTrip | log_analyzer.py:118-143 | Every valid date from 1900 to 2099, written into a log name as `%Y%m%d` with or without `.gz`, is read back from that name: the name is a candidate with exactly that date and compression. |
| Selector.SelectLastLogfile | log_analyzer.py:117-150 | The result is None exactly when no name counts. If a counted name dated `today` is later than every earlier one, the scan stops and returns it. Otherwise it returns the first counted name that carries the latest date. |
| Selector.SelectSample | test_log_analyzer.py:27-31 | A directory holding only `nginx-access-ui.log-20180630` yields that plain file, dated 30 June 2018, for any `today`. |
| Selector.SampleNameIsCandidate | test_log_analyzer.py:14 | The sample name is a plain candidate dated 2018-06-30. |
| Selector.MonthThirteenSkipped | log_analyzer.py:126-134 | A name that fits the pattern with month 13 is skipped, because `datetime.date` raises. |
| Selector.February30Skipped | log_analyzer.py:126-134 | A name that fits the pattern with 30 February 2018 is skipped. |
| Selector.AnyCharBeforeLog | log_analyzer.py:118 | The unescaped `.` of the pattern accepts `nginx-access-ui_log-20180630.gz`, as a GZIP file. |
| LineParser.RecordOf | log_analyzer.py:157-162 | The record of a grammatical line has a three-digit status (below 1000), a non-negative duration and a non-empty URL made of non-space characters. |
| LineParser.ParseLayout | log_analyzer.py:86-100 | Soundness: any layout the parser returns is grammatical and renders back to exactly the input line. |
| LineParser.ParseLine | log_analyzer.py:153-163 | A returned record is the record of some grammatical layout of the line. None stands for the `ValueError`. |
| LineParser.ParseLayoutComplete | log_analyzer.py:86-100 | Completeness: the parser finds the layout of every grammatical line. |
| LineParser.ParseLineComplete | log_analyzer.py:153-163 | Every line the pattern describes yields the record of its layout. |
| LineParser.ParseLineAccepts | log_analyzer.py:153-156 | A line yields a record if and only if it has a grammatical layout. |
| LineParser.LayoutUnique | log_analyzer.py:86-100 | The grammar is unambiguous: two grammatical layouts that render the same text are equal, so a line's record is determined by the line. |
| LineParser.ParseLogfile | log_analyzer.py:178-184 | The loop yields one item per line, in order, and each item is what the line parser makes of that line. |
| LineParser.DefaultParserItems | log_analyzer.py:166-184 | With the default parser, item `i` is a record exactly when line `i` matches the pattern, and it is then that line's record. |
| LineParser.SampleLineParses | test_log_analyzer.py:46-67 | The well-formed line of the unit test parses into the expected record, duration 0.390 included. |
| LineParser.WrongLineRejected | test_log_analyzer.py:68-82 | The malformed line of the unit test yields no record. |
| Statistics.MaxIsMaximum | log_analyzer.py:208-222 | The running `max` is one of the durations and no duration exceeds it. |
| Statistics.MinIsMinimum | log_analyzer.py:244 | The smallest duration is one of them and no duration is below it. It is the lower bound of the median. |
| Statistics.SumNonNegative | log_analyzer.py:224 | A sum of non-negative durations is non-negative, and it is zero exactly when every duration is zero. |
| Statistics.MedianBounds | log_analyzer.py:244 | The median lies between the smallest and the largest duration. |
| Statistics.MedianOfPermutation | log_analyzer.py:244 | The median depends only on the multiset of durations, not on their arrival order. |
| Statistics.MedianOfSorted | log_analyzer.py:244 | The median is the middle element, or the mean of the two middle ones, of any ascending arrangement of the data. |
| Statistics.SortAscCharacterized | log_analyzer.py:244 | The sort `median` uses is the unique ascending permutation of its input. |
| Statistics.MedianOddExample | log_analyzer.py:244 | With three values the median is the middle one. |
| Statistics.MedianEvenExample | log_analyzer.py:244 | With two values the median is their mean. |
| Ranking.SortDescStable | log_analyzer.py:236-237 | The descending sort is stable: the items sharing any one key keep their original relative order. |
| Ranking.PermutationDistinct | log_analyzer.py:236-237 | Rearranging a sequence without repetitions gives one without repetitions. |
| Aggregator.ScanLines | log_analyzer.py:192-225 | The loop's `stats` (with its key order), `req_times`, `total_lines`, `err_lines` and `summary_time` equal the reference pass `Scan` over the items. |
| Aggregator.ScanFacts | log_analyzer.py:199-225 | After the loop, `total_lines` is the number of lines and `err_lines` the number that did not parse. `summary_time` is the sum of all durations. The values of `stats` in key order are one accumulated entry per URL, in first-seen order, and `req_times[u]` is the durations of `u` in arrival order. |
| Aggregator.RecordsAndErrors | log_analyzer.py:200-203 | Parsed records plus unparsed lines make up all the lines. |
| Aggregator.UrlsAreRecordUrls | log_analyzer.py:204-214 | A URL is a key of `stats` if and only if some record carries it. |
| Aggregator.UrlsDistinct | log_analyzer.py:204-214 | Each URL is a key only once. |
| Aggregator.UrlsAndDurations | log_analyzer.py:204-225 | A URL is a key of `stats` exactly when it has at least one duration in `req_times`. |
| Aggregator.AccumFirst | log_analyzer.py:204-214 | The first record of a URL creates the entry with count 1, its duration as sum and max, and zeroed figures. |
| Aggregator.AccumNext | log_analyzer.py:216-223 | A later record of a URL raises the count by one, rounds the sum with the new duration and keeps the running maximum. |
| Aggregator.AccumOther | log_analyzer.py:216-225 | A record of one URL leaves every other URL's entry unchanged. |
| Aggregator.ErrorRate | log_analyzer.py:227-228 | `err_lines / total_lines > 0.2` holds exactly when `5 * err_lines > total_lines`. |
| Aggregator.ErrorShareExceeded | log_analyzer.py:227-228 | The threshold check is exceeded exactly when more than a fifth of the lines did not parse. |
| Aggregator.Kept | log_analyzer.py:236-238 | `[:result_size]` keeps `min(result_size, n)` rows for a non-negative size. A negative size drops that many rows from the end, down to none. |
| Aggregator.FinishRows | log_analyzer.py:239-245 | With rows to finish and `summary_time` zero, the result is a division by zero. Otherwise every row gets its count share of the parsed lines, its time share, its average and its median, from `req_times`. |
| Aggregator.FinishedAgree | log_analyzer.py:239-245 | Finishing from `req_times` and finishing from the records' own durations give the same rows. |
| Aggregator.RankedViaScan | log_analyzer.py:199-238 | Sorting the values the loop leaves behind gives the reference ranking, and `req_times` holds each ranked URL's durations. |
| Aggregator.GetLogfileStats | log_analyzer.py:187-247 | The method's result, table or error, is `Report` of the parsed lines. |
| StatsFacts.ReportErrors | log_analyzer.py:227-242 | `RuntimeError` is raised exactly when there are lines and more than a fifth did not parse. `ZeroDivisionError` is raised exactly when there are no lines, or when the threshold holds, rows are to be shown and all durations add up to zero. |
| StatsFacts.RankedFacts | log_analyzer.py:236-237 | The ranking holds one accumulated entry per URL, with no URL twice, by non-increasing time sum. |
| StatsFacts.ReportIsRanked | log_analyzer.py:236-245 | The table is the first `Kept(result_size, …)` entries of the ranking, each finished with the parsed-line count, the summary time and its durations. |
| StatsFacts.ReportRows | log_analyzer.py:236-245 | The table has `Kept(result_size, URLs)` rows, by non-increasing time sum, without repeated URLs. Each row holds its URL's count, rounded time sum, max, count and time percentages, average and median. |
| StatsFacts.FinalizeFields | log_analyzer.py:240-245 | Finishing a row keeps its URL, count, sum and max and fills in the four figures. |
| StatsFacts.ReportTopK | log_analyzer.py:236-238 | No URL left out of the table has a larger time sum than any URL shown in it. |
| StatsFacts.ReportAllUrls | log_analyzer.py:236-238 | When `result_size` is at least the number of URLs, every URL has a row. |
| StatsFacts.RankedTies | log_analyzer.py:236-237 | Among entries with equal time sum, the ranking keeps the order in which the URLs first appeared. |
| StatsFacts.RankedCountsAll | log_analyzer.py:199-237 | The counts of the ranked entries add up to the number of parsed records. |
| StatsFacts.ReportCountsAll | log_analyzer.py:199-245 | When every URL is shown, the counts of the table add up to the number of lines that parsed. |
| StatsFacts.CountOverUrls | log_analyzer.py:204-223 | Counting each URL's records over all URLs counts every record once. |
| StatsFacts.TimeSumExact | log_analyzer.py:209-221 | Without rounding, the accumulated time sum is the plain sum of the durations. |
| Report.ReportName | log_analyzer.py:250-251 | The name is `report-YYYY.MM.DD.html`: 22 characters, with digits in the date positions and dots between them. |
| Report.ParseReportName | log_analyzer.py:250-251 | Reading a date out of a name gives a year below 10000 and a month and day below 100. |
| Report.ReportNameRoundTrip | log_analyzer.py:250-251 | Reading the date back out of a report name gives the date. |
| Report.ParseReportNameSound | log_analyzer.py:250-251 | Any text that reads as a valid date is that date's report name. |
| Report.ReportNameInjective | log_analyzer.py:250-251 | Different dates get different report names. |
| Report.ReportNameExample | log_analyzer.py:250-251 | 30 June 2018 gives `report-2018.06.30.html`. |
| PyRepr.Str | deco.py:53 | `str` of an integer is non-empty and starts with a digit or a minus sign. |
| PyRepr.ParseItemsOf | deco.py:53 | The items of a tuple's text, followed by text that cannot continue them, read back as the items. |
| PyRepr.ParseTupleOf | deco.py:53 | `str` of a tuple of integers reads back as the tuple, for `()`, `(x,)` and longer tuples. |
| PyRepr.KeyRoundTrip | deco.py:53 | The memo key of a call reads back as the call's arguments. |
| PyRepr.KeyInjective | deco.py:53-58 | Different arguments get different keys, so the cache never answers one call with another's result. |
| Deco.AddAllIsTotal | deco.py:65-80 | `n_ary` of `+` (the right fold `a + (b + (c + …))`) is the sum of all the arguments. |
| Deco.MulAllIsProduct | deco.py:65-80 | `n_ary` of `*` is the product of all the arguments. |
| Deco.NAryExamples | deco.py:130-137 | The calls `main` makes give 7, 9, 12, 24 and 24. |
| Deco.CountCalls.constructor | deco.py:40 | `calls` starts at 0. |
| Deco.CountCalls.Call | deco.py:33-39 | A call returns the wrapped function's result and raises `calls` by exactly one. |
| Deco.Memo.constructor | deco.py:49 | The vault starts empty, and holds only correct results. |
| Deco.Memo.Call | deco.py:52-60 | A call returns the function's result. On a new key the vault gains exactly that key with that result. On a known key the vault is unchanged. Every stored entry stays the function's value for the arguments its key came from. |
| Deco.StoredValid | deco.py:54-56 | Storing a fresh result under its key keeps every entry of the vault right. |
| Deco.Foo.Call | deco.py:107-111 | `foo` returns the sum of its arguments. The counter inside the cache rises exactly on a cache miss, and the vault gains exactly that key. |
| Deco.Foo.constructor | deco.py:107-111 | `foo` starts with an empty vault and a fresh counter at 0 around the `n_ary` sum. |
| Deco.Bar.Call | deco.py:114-118 | `bar` returns the product of its arguments. The counter outside the cache rises on every call, and the vault grows only on a miss. |
| Deco.Bar.constructor | deco.py:114-118 | `bar` starts with `calls` at 0 and a fresh, empty cache around the `n_ary` product. |
| Deco.FibValue | deco.py:124-126 | The recurrence `fib` computes is at least 1 for every argument. |
| Deco.IndentShape | deco.py:90 | `prefix * count` is `count` copies of the prefix: its length is `count` times the prefix's, and copies add up. |
| Deco.LineIndent | deco.py:89-97 | Every printed trace line starts with `depth` copies of the prefix. |
| Deco.CallShape | deco.py:88-99 | A call of `fib` prints one entry line first and one exit line last, both at the caller's depth, and its result. Every line in between is deeper. It prints two lines per counted call, and afterwards its argument is cached and nothing cached before is lost. |
| Deco.CallRunFresh | deco.py:121-126 | With an empty cache, `fib(n)` for `n >= 2` counts `2n - 1` calls and leaves exactly `0..n` cached. |
| Deco.Fib.constructor | deco.py:40-101 | The countcalls counter (`calls = 0`), the memo vault (`dict()`) and the trace depth (`count = 0`) start empty, and no line has been printed. |
| Deco.Fib.Call | deco.py:33-39 | The outer `countcalls` layer: a call returns the recurrence's value and restores the trace depth. The cache only grows. The counter, the cache and the printed lines advance as the reference run `CallRun` says. |
| Deco.Fib.Traced | deco.py:88-99 | The `trace` layer: an entry line at the current depth, the cache layer one level deeper, then an exit line with the result at the same depth. `count` ends where it started. |
| Deco.Fib.Cached | deco.py:52-60 | The `memo` layer: a hit returns the stored value and changes nothing. A miss runs the body and stores its value under the key of `(n,)`. |
| Deco.Fib.Body | deco.py:124-126 | The body returns 1 up to 1. Otherwise it returns `fib(n - 1) + fib(n - 2)`, both through the fully decorated `fib`. |
| Deco.FibThree | deco.py:141 | `fib(3)` on a fresh cache counts five calls, caches 0 to 3 and prints the ten lines of the trace in order. |
| Deco.FooSession | deco.py:130-133 | `main`'s `foo` calls print 7, 9 and 7, and `foo.calls` is 2: the repeated call is answered by the cache. |
| Deco.BarSession | deco.py:135-138 | `main`'s `bar` calls print 12, 24 and 24, and `bar.calls` is 3. |
| Deco.FibSession | deco.py:140-142 | `main`'s `fib(3)` returns 3 and `fib.calls` is 5. The trace is the ten entry and exit events from depth 0, including the second `fib(1)`, which the cache answers. |

## Left out

- I/O is not modelled:
  - the log directory's existence check and its listing (`get_last_logfile_info`);
  - opening the plain or gzip file and decoding UTF-8 in `parse_logfile`;
  - the config file, `argparse`, `logging`, `sys.exit` and `main`;
  - `report_already_exists` and `render_template` (JSON, the HTML template, writing the report).
  The model starts from the file names and the decoded lines.
- `datetime.date.today()` is the parameter `today` of `SelectLastLogfile`: the clock is outside the model.
- `get_last_logfile_info` joining the directory to the chosen path is not modelled; the result keeps the bare name.
- LineParser.ParseLine: the regular expression is modelled as a grammar in which each lazy group ends at the first closing quote or bracket. Python's backtracking also accepts lines where a lazy group (`[…]`, a quoted field, or the request's `\S+` URL) has to run past its first closing `]` or `"` for the rest of the pattern to match. An example is a referer written `"a" b"`, which Python captures as `a" b`. The model refuses those lines.
- LineParser.ParseLine: `\d` stands for the ASCII digits only. Python's `\d` on `str` also accepts other Unicode decimal digits.
- Selector.MatchName: `\d` in the file-name pattern stands for the ASCII digits only. Python's `\d` also matches other Unicode decimal digits, and `int` converts them, so Python accepts a name such as `nginx-access-ui.log-20180٦30` (with U+0666) as 30 June 2018; the model skips it.
- LineParser.RecordOf: `float(request_time)` is the exact decimal value of the digits, as a real. Binary floating point is not modelled.
- Statistics, Aggregator and StatsFacts compute over exact reals, not IEEE doubles. So sums are exact and `statistics.median` is the exact middle.
- Aggregator.GetLogfileStats: `float(format(x, ".3f"))` on the running time sum, and the `f"{…:.3f}"` figures, are the parameter `round`. The figures are modelled as reals, not as the strings Python stores in the named tuple.
- Aggregator.GetLogfileStats: Python's `dict` is modelled as a `map` plus the sequence of its keys in insertion order, which is the order `stats.values()` yields.
- Aggregator.GetLogfileStats: the `logfile_parser` argument is applied beforehand. The method receives the sequence of items it yields, and the logging of the error rate is not modelled.
- Report.ReportName: the year is written with four digits. This is what `%Y` gives for every year from 1000 to 9999; for a year below 1000 the platform's `strftime` decides, and that is not modelled.
- Deco: `functools.wraps`, `update_wrapper` and their copying of `__name__`, `__doc__` and `__dict__` are not modelled. `foo.calls` is modelled as the counter object's `calls`, which is the value that copying `__dict__` makes visible.
- Deco: `disable` and `decorator` are not modelled; nothing in the module applies them.
- Deco: `print` is not modelled. The lines `trace` prints are `Event` values in `Fib.events`, and `Line` renders an event as the printed text.
- Deco: a call's keyword arguments are left out. The memo key is always the positional tuple followed by `{}`.
- Deco: the arguments are integers and the decorated functions are deterministic. The wrapped function of `countcalls` and `memo` is a Dafny function value.
- Deco.NAry: it requires at least two arguments. The docstring also promises `f(x) = x`, but the wrapper's signature `(first, second, *args)` rejects a single argument.
- Deco.Fib: the three decorator layers of `fib` keep their state (`calls`, `count`, `vault`) in one object, with one method per layer. This is equivalent to the three wrapper objects, since nothing else reaches them.
