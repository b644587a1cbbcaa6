# log_analyzer in Dafny

A model of the core of `log_analyzer`, a script that summarises nginx access
logs. Three routines of `log_analyzer.py` are modelled:

- **Log selection** (`find_recent_log_file`). The script scans a directory
  listing for names of the form `nginx-access-ui.log-YYYYMMDD[.gz]` and keeps
  the one with the newest valid date. Where several names share that date,
  the first one scanned wins.
- **Per-URL aggregation** (`parse_file_info`). Each line either yields a URL
  and a request time or counts as an error. For every URL the script keeps a
  count, a sum, a maximum, a running mean and the raw samples. A second loop
  then adds the median and two percentage shares, rounds to three decimals
  and drops the raw samples. The script logs a diagnostic when at least half
  the lines did not parse.
- **Ranking** (`prepare_dict_for_template`). The finished table is sorted by
  total time, largest first. The sort is stable. The result is cut to the
  configured size and each row gets its URL.

Modules:

- `Outcomes` holds `Option`, `Result` and the one error the core can raise.
- `Text` holds character helpers.
- `LogSelector` models log selection.
- `LineExtractor` is the regular expression of line 55, written out by hand.
- `Rounding` models `round(x, 3)` on exact reals, with ties going to the even neighbour.
- `Statistics` holds sum, maximum and `statistics.median`.
- `Aggregator` holds both loops of `parse_file_info`.
- `Ranker` models ranking.

Representation:

- The work is split between plain functions and imperative methods:
  - Each routine's loop is an imperative `method` with its invariants:
    - the line loop `AccumulateLines` is proved equal to the function `Accumulate`, and lemmas state what the source promises about that function;
    - the row loop `PrepareForTemplate` is proved to turn each entry of the function `Ranked` into its row, in order;
    - the directory scan `FindRecentLogFile` is specified by the predicate `Chosen`;
    - the finalisation loop `Finalize` is specified by the predicate `FinalizedFrom`, which relates each finished record to its accumulated one.
  - The two regular expressions and the date parse are plain functions.
- `datetime.strptime` is modelled along its own route: the format becomes a regular expression, matched at the start of the string, and then `datetime` range-checks the fields. On eight digits this is proved to agree with reading `YYYYMMDD`.
- A request time always carries exactly three decimals in the log format. So it is a whole number of milliseconds, and `time_sum` and `time_max` are exact.
- Means, medians and percentages are exact reals.
- Python's dictionary insertion order is kept as a key sequence beside each map. Both the finalisation loop and the sort's tie order depend on it.

Two behaviours of the code are easy to misread:

- **Ties between dates.** The comparison at line 40 is a strict `>`, so the first name scanned wins among equal dates. `FindRecentLogFile` and `ChosenIsUnique` state the first-wins rule.
- **Zero total time.** Only the `errors_num / requests_num` division (lines 90-94) is guarded. When every matched line has time `0.000`, the `time_perc` division at line 83 raises `ZeroDivisionError`, and nothing in `parse_file_info` catches it. `Finalize` and `ParseFileInfo` return `Err(ZeroDivision)` in exactly that case.

## Model

| member | source | states |
|---|---|---|
| LogSelector.DaysInMonth | log_analyzer.py:39 | A month has 28 to 31 days; it has 29 exactly when it is February of a Gregorian leap year |
| LogSelector.MonthWidths | log_analyzer.py:39 | The widths the `%m` alternatives can match are 1 or 2 and stay inside the string |
| LogSelector.DayWidths | log_analyzer.py:39 | The widths the `%d` alternatives can match are 1 or 2 and stay inside the string |
| LogSelector.MonthDay | log_analyzer.py:39 | The backtracking picks one of the month alternatives after which the day group matches, with the day's first matching alternative there; when the first month alternative lets a day match, it is the one taken |
| LogSelector.MonthDayIsFirst | log_analyzer.py:39 | The backtracking fails exactly when no month alternative lets a day match. Otherwise it takes the first one that does: every alternative tried before it leaves no day |
| LogSelector.ParseDate | log_analyzer.py:39 | `strptime('%Y%m%d')` along its own route: pattern match at the start, no unconverted data, then the range check. Every date it yields is valid |
| LogSelector.FullMatchShape | log_analyzer.py:39 | On eight digits the pattern reaches the end only with two-digit fields spelling a month 1-12 and a day 1-31 |
| LogSelector.TwoDigitFieldsMatch | log_analyzer.py:39 | Conversely, eight digits whose month reads 1-12 and day 1-31 match as four, two and two digits, and the fields read as `YYYYMMDD` |
| LogSelector.ParseDateOnDigits | log_analyzer.py:39 | On eight digits `strptime` succeeds exactly when `YYYYMMDD` is a valid date, and yields that date |
| LogSelector.StrptimeShortFields | log_analyzer.py:39 | `201765` parses as 5 June 2017 through single-digit fields |
| LogSelector.BacktrackedWidths | log_analyzer.py:39 | In `201711` the month `11` leaves no day, so the backtracking settles on month width 1 and day width 1 |
| LogSelector.StrptimeBacktracksMonth | log_analyzer.py:39 | `201711` parses as 1 January 2017, after backtracking from month `11` |
| LogSelector.StrptimeUnconvertedData | log_analyzer.py:39 | `20171301` is rejected: month 13 is read as month 1, and a character is left unconverted |
| LogSelector.MatchLogName | log_analyzer.py:36-38 | A successful match is the whole name, or the name less a final newline. It is 28 characters long, or 31 ending in `.gz`. It has the fixed prefix, a non-newline character and `log-`, and its group 1 is the eight digits at positions 20-27 |
| LogSelector.NameMatches | log_analyzer.py:36-38 | Conversely, the prefix, any non-newline character, `log-`, eight digits and an optional `.gz` match, with or without a final newline, with group 0 the name less that newline and group 1 the digits |
| LogSelector.ParseLogName | log_analyzer.py:35-43 | A name yields a path part and a date exactly when it matches and its digits spell a valid date; the date is the one they spell, `YYYYMMDD`. Otherwise the exception is swallowed (None) |
| LogSelector.FindRecentLogFile | log_analyzer.py:31-44 | The result is the sentinel `(None, MIN_DATE)` exactly when no name qualifies. Otherwise it is `LOG_DIR + "/" + name` and the date of a qualifying entry: no entry is newer, and every earlier entry is strictly older |
| LogSelector.ChosenIsUnique | log_analyzer.py:40-41 | The selection contract fixes a single entry and result: newest date, first among equals |
| LogSelector.MinDateNeverQualifies | log_analyzer.py:33-40 | A name dated 0001-01-01 never replaces the `datetime.min` sentinel |
| LogSelector.FixtureNamesQualify | tests/test.py:21-28 | The plain and gzip fixture names parse to themselves and 2017-06-30 |
| LogSelector.OtherSuffixSkipped | log_analyzer.py:36 | A `.bz2` suffix does not match the anchored pattern |
| LogSelector.CommonLeapDaySkipped | log_analyzer.py:39-42 | The name dated 20170229 is skipped, because 2017 has no February 29th |
| LogSelector.LeapDayAccepted | log_analyzer.py:39 | The name dated 20160229 parses to itself and 2016-02-29 |
| LineExtractor.MethodLength | log_analyzer.py:55 | A method (GET, POST, DELETE, PUT) starts at the position exactly when the result is non-zero, and its length is the result |
| LineExtractor.DollarEnd | log_analyzer.py:55 | `$` for the time token sits before the last character exactly when the line ends in a newline |
| LineExtractor.TokenMillis | log_analyzer.py:57 | A `d.ddd` token is below 10 000 milliseconds |
| LineExtractor.Candidate | log_analyzer.py:55 | A match of the pattern at quote position `p` with URL end `r`, the fillers newline-free and the time token before `$`; `Extract` and `ExtractIsLeftmostGreedy` state which candidate is reported |
| LineExtractor.Groups | log_analyzer.py:55-57 | A match's URL is non-empty and free of newlines, and its time is a single-digit-seconds token |
| LineExtractor.LongestUrlEnd | log_analyzer.py:55 | The greedy URL end: the largest end at or below the bound that lets the rest of the pattern match, or None when there is none |
| LineExtractor.FirstMatch | log_analyzer.py:55 | The leftmost start from which the pattern matches, with its greedy URL end; None when no later start matches |
| LineExtractor.Extract | log_analyzer.py:55-57 | Some exactly when the pattern matches somewhere. The groups are those of the leftmost match with the greediest URL, and the time is the `d.ddd` token just before `$` |
| LineExtractor.ExtractIsLeftmostGreedy | log_analyzer.py:55 | Any leftmost-greedy match is the one `Extract` reports |
| LineExtractor.CrLfNeverMatches | log_analyzer.py:55 | A line ending in `\r\n` is always an error line |
| LineExtractor.UnknownMethodNeverMatches | log_analyzer.py:55 | A line where no quote is followed by one of the four methods is an error line |
| LineExtractor.SampleLineExtract | log_analyzer.py:55-57 | A minimal `GET` request line yields `/api/v2/banner/1` and 390 ms |
| Rounding.Round3 | log_analyzer.py:81-86 | `round(x, 3)` is a multiple of 0.001 within half a thousandth of `x`, and the even multiple at a tie |
| Rounding.Round3Exact | log_analyzer.py:85-86 | A value with at most three decimals is unchanged by rounding |
| Rounding.Round3Monotone | log_analyzer.py:81-86 | Rounding preserves order |
| Rounding.Round3Between | log_analyzer.py:81-86 | A value between two three-decimal bounds rounds to a value between them |
| Rounding.SecondsExact | log_analyzer.py:85-86 | A whole number of milliseconds, shown in seconds, is exact |
| Rounding.SecondsBetween | log_analyzer.py:81 | A duration within `[0, hi]` ms is shown within `[0, hi/1000]` s |
| Rounding.PercentBetween | log_analyzer.py:82-83 | A part of a whole is a share between 0 and 100 |
| Rounding.PercentOfWhole | log_analyzer.py:82-83 | A whole is 100 percent of itself |
| Statistics.SumAppend | log_analyzer.py:68 | Adding a sample adds it to the sum |
| Statistics.Max0Append | log_analyzer.py:69 | Adding a sample gives `max(sample, old maximum)` |
| Statistics.Max0IsMaximum | log_analyzer.py:69 | `time_max` (from start value 0) bounds every sample and is one of them when there are any |
| Statistics.InsertAddsOne | log_analyzer.py:81 | Insertion adds exactly the inserted sample |
| Statistics.InsertKeepsSorted | log_analyzer.py:81 | Insertion into an ascending sequence keeps it ascending |
| Statistics.Sort | log_analyzer.py:81 | The sort inside `statistics.median` is ascending and a permutation |
| Statistics.SortedUnique | log_analyzer.py:81 | Two ascending permutations of each other are equal |
| Statistics.Median | log_analyzer.py:81 | `statistics.median`; its meaning is stated by `MedianOfSorted`, `MedianIgnoresOrder` and `MedianBetween` |
| Statistics.MedianIgnoresOrder | log_analyzer.py:81 | The median depends only on the multiset of samples |
| Statistics.MedianOfSorted | log_analyzer.py:81 | The median is the middle sample for an odd count, and the mean of the two middle samples for an even count |
| Statistics.MedianBetween | log_analyzer.py:81 | The median lies within any bounds of the samples |
| Aggregator.Accumulate | log_analyzer.py:53-78 | Every line increments `requests_num` |
| Aggregator.Observe | log_analyzer.py:67-71 | One sample added to a record; `ObserveKeepsAccOk` states that count, sum, maximum and mean stay those of the samples |
| Aggregator.RunningMean | log_analyzer.py:70 | The running update of `time_avg`; `RunningMeanIsMean` states that it is the mean |
| Aggregator.Step | log_analyzer.py:53-78 | One iteration of the line loop; `StepKeepsWellFormed` and `RejectedLineOnlyCounts` state its effect |
| Aggregator.Record | log_analyzer.py:59-74 | A matched line recorded; `RecordKnownKeepsWellFormed` and `RecordNewKeepsWellFormed` state its effect |
| Aggregator.RunningMeanIsMean | log_analyzer.py:70 | The running update `(avg*count + t)/(count+1)` is exactly the mean of the samples so far |
| Aggregator.ObserveKeepsAccOk | log_analyzer.py:68-72 | After an accepted line the record still has `count == len(time_values) > 0`, and its sum, maximum and mean match the samples |
| Aggregator.RecordKnownKeepsWellFormed | log_analyzer.py:59-74 | A sample for a known URL keeps the loop invariant, updates only that URL's record and leaves the key order alone |
| Aggregator.RecordNewKeepsWellFormed | log_analyzer.py:59-74 | A sample for a new URL keeps the loop invariant, creates its record from the empty one and appends the URL to the key order |
| Aggregator.StepKeepsWellFormed | log_analyzer.py:53-78 | Every line keeps the loop invariant: distinct key order, consistent records, `sum_request_time` equal to the sum of `time_sum`, `requests_num == errors_num + sum of count` |
| Aggregator.AccumulateWellFormed | log_analyzer.py:53-78 | The invariant holds after any sequence of lines |
| Aggregator.AccumulateCounts | log_analyzer.py:74-76 | After the loop, `errors_num` counts the rejected lines and `sum_request_time` is the total matched time |
| Aggregator.AccumulateSamples | log_analyzer.py:59-72 | After the loop, a URL has a record exactly when some line yields it, and its `time_values` are its times in line order |
| Aggregator.AccumulateAgreesWithLines | log_analyzer.py:53-78 | After the loop, `errors_num` is the number of lines that do not match, and `sum_request_time` is the total matched time. A URL has a record exactly when some line yields it, and its `time_values` are that URL's times in line order |
| Aggregator.RecordSummarisesSamples | log_analyzer.py:59-72 | A URL's record holds the count, sum, maximum and mean of exactly its samples |
| Aggregator.RejectedLineOnlyCounts | log_analyzer.py:75-78 | An unmatched line increments `requests_num` and `errors_num` and touches nothing else |
| Aggregator.CountConservation | log_analyzer.py:53-78 | The line count is the error count plus the sum of all `count`s, and records exist exactly when some line matched |
| Aggregator.AccumulateLines | log_analyzer.py:48-78 | The streaming loop ends in the state the line-by-line specification gives, and that state satisfies the invariant |
| Aggregator.Finalize | log_analyzer.py:80-87 | Returns `ZeroDivision` exactly when there are records and the total time is zero. Otherwise every record is finalised against the run's totals, with keys and key order unchanged |
| Aggregator.Finalized | log_analyzer.py:81-86 | One record finished against the run's totals; `FinalizedFields` states what its fields are |
| Aggregator.FinishedTable | log_analyzer.py:80-87 | Once the loop has visited every key, the result has the same keys and key order, each record finalised, and records only when the total time is positive |
| Aggregator.FinalizedFields | log_analyzer.py:80-87 | A finished row keeps its count. Its sum and maximum are exact in seconds, its mean and median are those of its samples rounded, its median is at most its maximum, and both shares lie within 0-100 |
| Aggregator.RecordWithinTotals | log_analyzer.py:82-83 | A record's count and time never exceed the totals its shares divide by |
| Aggregator.SingleUrlShares | tests/test.py:38-60 | With a single URL, `time_perc` is 100; with no error lines as well, `count_perc` is 100 |
| Aggregator.ThreeOfSevenShare | tests/test.py:54-55 | Three matching lines out of seven give `count_perc` 42.857 |
| Aggregator.HighErrorRate | log_analyzer.py:91 | The condition of the attention diagnostic; `ParseFileInfo` states when it is logged |
| Aggregator.ParseFileInfo | log_analyzer.py:48-95 | The result is an error exactly when some line matched and all matched times are zero. An empty file gives `{}`. Otherwise the result is the finalised accumulation, and the attention diagnostic is logged exactly when the error share is at least 0.5 |
| Aggregator.ReportSummarisesLines | log_analyzer.py:48-87 | A returned row, in terms of the lines: how many matched its URL, their exact total and maximum in seconds, their rounded mean and median, and its shares, exactly `round(count / lines * 100, 3)` and `round(time / total matched time * 100, 3)`, within 0-100 |
| Ranker.Items | log_analyzer.py:120 | `stat_dict.items()` holds only the table's own records, one per listed key at most |
| Ranker.ItemsLength | log_analyzer.py:120 | When every listed key is in the table, there is one entry per key, in key order, each the key with its record |
| Ranker.InsertPermutes | log_analyzer.py:120 | Insertion adds exactly the inserted entry |
| Ranker.InsertKeepsOrder | log_analyzer.py:120 | Insertion into a largest-first sequence keeps it largest-first |
| Ranker.SortByTime | log_analyzer.py:120 | `sorted(..., reverse=True)` on `time_sum` is largest-first and a permutation |
| Ranker.InsertWithKey | log_analyzer.py:120 | Inserting an entry puts it first among the entries with its key |
| Ranker.SortIsStable | log_analyzer.py:120 | The sort is stable: for every key value, the entries with that key keep their input order |
| Ranker.SliceEnd | log_analyzer.py:120 | `[:n]` ends where exactly the indices that survive lie before it: those below `n`, or for a negative `n` those followed by at least `-n` entries |
| Ranker.Ranked | log_analyzer.py:120 | The sorted entries cut by the slice; `RankedShape`, `RankedFromTable`, `RankedIsTop`, `RankedIsStable` and `RankedLength` state its properties |
| Ranker.RankedShape | log_analyzer.py:120 | The cut table has the length the slice gives, largest time first |
| Ranker.RankedFromTable | log_analyzer.py:120 | Every kept entry is a record of the table, unchanged, and none is kept twice |
| Ranker.RankedIsTop | log_analyzer.py:120 | No record left out has a larger `time_sum` than the last one kept |
| Ranker.RankedIsStable | log_analyzer.py:120 | Among equal `time_sum`s the kept entries are the first ones in table order |
| Ranker.RankedLength | log_analyzer.py:120 | The output has `min(REPORT_SIZE, number of URLs)` rows for a non-negative size, and `max(0, number of URLs + REPORT_SIZE)` for a negative one |
| Ranker.RankedKeepsAll | log_analyzer.py:120 | A size at least the number of URLs keeps every record |
| Ranker.PrepareForTemplate | log_analyzer.py:117-124 | The rows are the ranked, cut entries in order, each with its key as `url`. There are as many as the slice keeps, largest time first, each being the table's record for its `url` |

## Left out

- File and directory I/O is not modelled:
  - `fetch_file_lines` (gzip or plain reading, UTF-8 decoding) is replaced by a given sequence of lines, each keeping its final newline;
  - `os.listdir` is replaced by a given sequence of names in listing order.
- `get_template_str`, `render_template`, `save_report`, `get_args`, `parse_input_args`, `main` and `settings.py` are not part of this model. They hold template substitution, file writing, argument parsing, configuration merging and logging set-up, with no logic of the core.
- The logger calls are left out. `ParseFileInfo` returns the condition of the attention diagnostic as `warn`. The "No logs found" message is the case `lines == []`.
- Python's `\d` also accepts non-ASCII decimal digits. The model of both patterns accepts only `0`-`9`, because the log format and the file names use ASCII only.
- Rounding.Round3: models `round` on the exact real value. Python rounds the nearest binary float, which can differ at exact ties, so no float-specific fixture values (such as `time_avg` 0.324) are proved.
- Aggregator.FinalizedFields: does not state that the rounded `time_perc` values of a run sum to about 100, because rounding makes the sum inexact.
- Aggregator.Finalize: models the `ZeroDivisionError` at line 83 as an error result. The updates of lines 81-82 to the first record, which precede it, are not modelled, since the exception discards the dictionary.
- The `time_med: 0` placeholder of a fresh record (line 66) is omitted, because line 81 overwrites it before the record is returned.
- `AccumulateLines` does not insert a fresh record and then update it through the map (lines 59-72). It computes the updated record from the old one, or from the empty record, and stores it once; the result is the same value.
- Ranker.PrepareForTemplate: rows are fresh values, so the in-place write of `v["url"]` into the finished table's own dictionaries is not modelled. Neither is the aliasing that write creates between the table and the rows.
- `reportSize` is an `int`. A `REPORT_SIZE` of `None` (a JSON `null`) is not modelled; the slice `[:None]` keeps every entry, as a size at least the number of URLs does here. Other non-integers raise `TypeError` in the slice and are not modelled either.
- `time_sum`, `time_max`, `sum_request_time` and the running `time_avg` are binary floats in the source, and the sums collect rounding error. The model keeps exact whole milliseconds and exact reals, so that accumulated error is not modelled.
