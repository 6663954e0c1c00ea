# LOGFILEPARSER in Dafny

A model of the log-processing pipeline of LOGFILEPARSER. The pipeline works in four stages:

- **Parse.** A line parser turns each line of an access-log file into a record. A record maps a field name to a string, or to `None` for a field the line does not have. The built-in parser reads the NCSA Common/Combined access-log layout. A generic parser takes any regular expression with named groups.
- **Count.** With `analyze`, a statistics collector sits in the stream. It counts the records, their status codes, client addresses and HTTP methods as they go by.
- **Export.** The stream is then drained into one of three places:
  - a CSV file;
  - a JSON array file;
  - standard output for `parse`, or nothing at all for `analyze`.
- **Report.** Finally the collector prints its report.

The project has eight modules:

| module | file | what it holds |
|---|---|---|
| `Text` | `text.dfy` | Python's `str.isspace`, `strip` and `join` |
| `Records` | `records.dfy` | records as ordered lists of fields, the `dict` lookup |
| `Parser` | `parser.dfy` | `RegexLogParser.parse_line` over an abstract matcher, and `parse_file` |
| `Nginx` | `nginx.dfy` | the built-in access-log pattern, written out as a matcher |
| `Counter` | `counter.dfy` | `collections.Counter`: `+= 1` and `most_common` |
| `Stats` | `stats.dfy` | `LogStatsCollector`, as a class whose counters are updated in place |
| `Exporters` | `exporters.dfy` | `export_to_csv` and `export_to_json` |
| `Cli` | `cli.dfy` | `main`: argument checks, output-format choice, the wiring of the stages |

The built-in pattern is matched by a hand-written backtracking matcher.

- A `\S+` token is the whole run of non-whitespace characters at its place. For `ip`, the two unnamed tokens, `method` and `url`, a single space follows. `protocol` is that run less its closing quote, and a space follows the quote. `size` is followed by ` "` (the optional referrer/user-agent group) or by the end of the line.
- The three lazy groups `(?P<time>.*?)`, `(?P<referrer>.*?)` and `(?P<user_agent>.*?)` are one generic lazy search, `Nginx.Lazy`. It tries the shortest capture first and never takes a newline.
- `$` accepts the end of the line or one final newline.

The model proves that the matcher accepts exactly the lines that can be written from the layout's parts. A line is read back into exactly the parts it was written from when the time holds no `]` and the referrer holds no `"`. Without those two conditions the lazy groups stop at the first `] "` or `" "` for which the rest of the line still matches, as Python's do, so the captured time or referrer can be shorter than the one written.

The statistics collector keeps its counters as fields that `ProcessStream` reassigns item by item. `most_common` is a stable insertion sort on descending count, so ties keep the order in which keys were first counted.

Each exporter is a loop proved against a function that states the file it leaves behind. The functions cover both cases:

- the CSV table, or the rows written before `DictWriter` raises;
- the JSON text.

The command line is a function `Cli.Run` from the arguments and the input file's lines to the outcome. `Cli.RunCommand` computes that outcome with the collector object and the exporter methods.

## Model

| member | source | states |
|---|---|---|
| Text.IsSpace | src/parser.py:18 | the characters Python's `str.isspace` accepts, which `strip()` removes and `\S` excludes |
| Text.TrimStart | src/parser.py:18 | drops the leading whitespace (the left half of `strip()`) |
| Text.TrimEnd | src/parser.py:18 | drops the trailing whitespace (the right half of `strip()`) |
| Text.Strip | src/parser.py:18 | `line.strip()`: both ends trimmed; the three lemmas below pin it down |
| Text.StripHasNoEdgeSpace | src/parser.py:18 | the stripped line is no longer than the line and neither starts nor ends with whitespace |
| Text.StripRemovesOnlyEdges | src/parser.py:18 | the stripped line is the middle slice of the line; everything removed before and after it is whitespace |
| Text.StripIdempotent | src/parser.py:18 | stripping twice is stripping once |
| Records.Lookup | src/stats.py:23-28 | `key in item` / `item[key]`: no value exactly when the key is absent, otherwise a value stored under that key |
| Parser.LineParser | src/parser.py:26-33 | the `parse_line` of a `RegexLogParser` built from a compiled pattern, as `parse_file` calls it |
| Parser.Truthy | src/parser.py:19 | `if parsed:` is false for `None` and for the empty dict, true otherwise |
| Parser.Kept | src/parser.py:17-20 | one raw line contributes the parse of its stripped text when that is truthy, and nothing otherwise |
| Parser.ParsedLines | src/parser.py:14-20 | the records `parse_file` yields, in file order; `ParsedLinesAreTruthyParses` pins it down |
| Parser.GroupDict | src/parser.py:32 | `groupdict()`: keys are the pattern's group names in order, each holding its capture, `None` for a group that did not take part |
| Parser.ParseLine | src/parser.py:29-33 | never fails: `None` exactly when the matcher finds no match; otherwise a record whose keys are exactly the pattern's named groups, each holding its capture |
| Parser.ParseLineLookup | src/parser.py:29-33 | looking up a group name in a matched line's record gives that group's capture |
| Parser.ParseFile | src/parser.py:14-20 | the loop over the file yields exactly `ParsedLines`: the truthy parses of the stripped lines, in file order |
| Parser.ParsedLinesAppend | src/parser.py:16-20 | the stream of a file is the stream of its first lines followed by the stream of the rest, so a consumer that stops early has seen the stream of a prefix |
| Parser.Origins | src/parser.py:16-20 | one source line per record, each a valid line position, strictly increasing |
| Parser.RecordsComeFromOrigins | src/parser.py:17-20 | the k-th record is the non-empty parse of the stripped line at its origin |
| Parser.OthersAreDropped | src/parser.py:19-20 | every other line parsed to `None` or to an empty record |
| Parser.ParsedLinesAreTruthyParses | src/parser.py:16-20 | the stream is the order-preserving subsequence of per-line parses that are truthy; `None` and `{}` are both dropped |
| Parser.NoGroupsYieldNothing | src/parser.py:19-20 | a pattern without named groups yields only `{}`, so its stream is empty |
| Nginx.RunLength | src/parser.py:44 | greedy `\S+`: the length of the whole run of non-whitespace at the start of the text |
| Nginx.TokenThenSpace | src/parser.py:44 | `\S+ `: a match splits the text into a token, one space and the rest |
| Nginx.TokenThenQuoteSpace | src/parser.py:44 | `\S+" `: a match is a token, `" ` and the rest; the token is the run less its closing quote |
| Nginx.StatusThenSpace | src/parser.py:44 | `\d{3} `: a match is three digits, a space and the rest |
| Nginx.ClosingQuote | src/parser.py:44 | `"$` matches exactly `"` alone or `"` and one final newline |
| Nginx.AfterReferrer | src/parser.py:44 | `" "(?P<user_agent>.*?)"$`: the lazy user-agent group after the referrer |
| Nginx.TrailerGroup | src/parser.py:44 | the optional ` "referrer" "user_agent"` group, tried with `$` after it |
| Nginx.SizeAndTrailer | src/parser.py:44 | `(?P<size>\S+)`, then the optional group (tried first), else the end of the line |
| Nginx.StatusSizeTrailer | src/parser.py:44 | status, one space, size and the optional trailer, anchored by `$` |
| Nginx.Request | src/parser.py:44 | `\] "method url protocol" `: the request after the time and what follows it |
| Nginx.AfterTime | src/parser.py:44 | what the rest of the pattern must match after the lazy time group |
| Nginx.Idents | src/parser.py:44 | `^(?P<ip>\S+) \S+ \S+ `: the three leading tokens and what follows |
| Nginx.MatchEntry | src/parser.py:44 | `re.match` of the whole pattern: the split of the line into the layout's parts, or no match; `NginxParsesExactlyTheLayout`, `MatchEntrySound` and `MatchReadsBackEntry` pin it down |
| Nginx.Lazy | src/parser.py:44 | a lazy `.*?` capture is a newline-free prefix of the input, at least as long as the starting length |
| Nginx.LazySound | src/parser.py:44 | the rest of the pattern matches after the capture, and fails after every shorter capture |
| Nginx.LazyFindsShortest | src/parser.py:44 | when some newline-free capture lets the rest match, the lazy group finds one no longer than it |
| Nginx.LazyTakesFirst | src/parser.py:44 | when the rest fails for every shorter capture, the lazy group takes exactly the one that works |
| Nginx.AfterTimeNeedsBracket | src/parser.py:44 | the rest after `time` matches only at a `]` |
| Nginx.AfterReferrerNeedsQuote | src/parser.py:44 | the rest after `referrer` matches only at a `"` |
| Nginx.MatchEntrySound | src/parser.py:44 | a match is a well-formed split whose text is the whole line, up to the final newline that `$` lets through. In a well-formed split, `ip`, `method`, `url`, `protocol` and `size` are `\S+` tokens and `status` is three digits |
| Nginx.MatchFindsEveryEntry | src/parser.py:44 | every line written from a well-formed split is matched, with the same three leading tokens and a time no longer than the split's |
| Nginx.TimeGroupOf | src/parser.py:44 | a time without `]` is taken whole by the lazy time group |
| Nginx.MatchReadsBackEntry | src/parser.py:44 | a line written from a split whose time has no `]` and whose referrer has no `"` is matched as exactly that split |
| Nginx.Captures | src/parser.py:44 | the text of each named group in pattern order; `referrer` and `user_agent` take no part without the trailer |
| Nginx.NginxMatcher | src/parser.py:44 | the compiled pattern's `match`: the captures of the matched split, or no match |
| Nginx.NginxPattern | src/parser.py:46-47 | `NginxLogParser()`: a `RegexLogParser` over the nine group names and the built-in matcher |
| Nginx.EntryRecord | src/parser.py:32 | the nine-field dict `groupdict()` returns for a split |
| Nginx.GroupDictOfEntry | src/parser.py:32 | the `groupdict()` of a split is its nine-field record |
| Nginx.NginxLineRecord | src/parser.py:44-47 | `parse_line` of `NginxLogParser` is `None` or the record of the matched split |
| Nginx.NginxParsesExactlyTheLayout | src/parser.py:44 | a line is parsed if and only if some well-formed split writes it, with nothing or one newline after it |
| Nginx.NginxRecordOfSplit | src/parser.py:44 | every parsed record is the record of a well-formed split that writes the line |
| Nginx.EntryRecordShape | src/parser.py:32 | a record has the nine keys in group order and the first seven captured; `referrer` and `user_agent` are both `None` or both captured, and both are `None` exactly without the trailer |
| Nginx.NginxReadsBack | src/parser.py:44 | a line written from such a split is parsed into exactly the split's fields |
| Nginx.NginxRejectsWithoutBracket | src/parser.py:44 | three tokens followed by anything but `[` give `None` |
| Nginx.CommonLogLine | tests/test_parser.py:6-16 | the Common Log Format sample line gives `ip`, `time`, `method`, `url`, `protocol`, `status`, `size`, with `referrer` and `user_agent` `None` |
| Nginx.CombinedLogLine | tests/test_parser.py:18-27 | the Combined Log Format sample line gives all nine fields, `referrer` and `user_agent` included |
| Nginx.FreeTextIsNotALogLine | tests/test_parser.py:29-33 | `This is not a log line` gives `None` |
| Counter.Get | src/stats.py:24-28 | `counter[key]` is zero for a key never counted |
| Counter.GetAt | src/stats.py:24-28 | in a valid counter a key's count is the one at its entry, and is positive |
| Counter.Increment | src/stats.py:24-28 | `counter[key] += 1` adds one to the total |
| Counter.IncrementGet | src/stats.py:24-28 | `+= 1` raises the key's count by one and leaves every other count alone |
| Counter.IncrementKeys | src/stats.py:24-28 | keys keep their first-counted order; a new key goes last |
| Counter.IncrementKeepsValid | src/stats.py:24-28 | every key stays present once, with a positive count |
| Counter.Insert | src/stats.py:38-46 | places an entry after every entry with a higher count and before the rest |
| Counter.SortDesc | src/stats.py:38-46 | the stable sort on descending count; `SortDescFacts` pins it down |
| Counter.MostCommon | src/stats.py:38-46 | `most_common(n)` and `most_common()`; `MostCommonOrder` pins it down |
| Counter.InsertDescending | src/stats.py:38-46 | inserting into a descending list keeps it descending |
| Counter.InsertPermutes | src/stats.py:38-46 | insertion adds exactly the inserted entry |
| Counter.InsertWithCount | src/stats.py:38-46 | an inserted entry goes before every entry with the same count, as a stable sort needs when the earliest-counted key is inserted last |
| Counter.SortDescFacts | src/stats.py:38-46 | the sort is descending, a permutation, and stable: entries with the same count keep their order |
| Counter.InsertKeepsValid | src/stats.py:38-46 | inserting an entry whose key is new and whose count is positive keeps every key once with a positive count |
| Counter.MostCommonKeepsValid | src/stats.py:38-46 | a valid counter's `most_common` listing holds each key once, each with a positive count |
| Counter.SortDescKeepsValid | src/stats.py:38-46 | the sorted listing of a valid counter holds every key once, each with a positive count |
| Counter.MostCommonOrder | src/stats.py:38-46 | `most_common(n)` is the first `min(n, len)` entries of that stable descending sort; `most_common()` is all of them |
| Stats.Count | src/stats.py:23-28 | one counter's update for one item: `+= 1` on the item's value under the field, no change when the item lacks the field |
| Stats.Tallied | src/stats.py:18-28 | a counter after the items of a stream, in stream order |
| Stats.TalliedSnoc | src/stats.py:18-28 | one more item is one more `Count` step |
| Stats.CountsAreOccurrences | src/stats.py:23-28 | each value's count grows by the number of items holding it under the field |
| Stats.TotalIsItemsWithField | src/stats.py:23-28 | the counts grow in sum by the number of items that have the field |
| Stats.TalliedAppend | src/stats.py:18-30 | counting a stream in two parts is counting it whole, so stats after a pulled prefix are the stats of that prefix |
| Stats.CountsNeverDecrease | src/stats.py:18-30 | a count after a prefix never exceeds the count after the whole stream |
| Stats.TalliedKeepsOrder | src/stats.py:23-28 | counters stay valid, and earlier keys keep their places |
| Stats.KeysAreSeenValues | src/stats.py:23-28 | a fresh counter's keys are exactly the values seen |
| Stats.CountGet | src/stats.py:23-28 | one item raises exactly the count of the value it holds |
| Stats.CountsOfThree | src/stats.py:23-28 | over three items a value is counted once per item holding it |
| Stats.SampleCounts | tests/test_parser.py:45-62 | the sample stream gives addresses {1.1.1.1: 2, 2.2.2.2: 1}, statuses {200: 2, 404: 1} and methods {GET: 2, POST: 1} |
| Stats.LogStatsCollector.constructor | src/stats.py:7-11 | a new collector has total 0 and three empty counters |
| Stats.LogStatsCollector.CountItem | src/stats.py:19-28 | one pulled item adds one to the total and updates each counter only if the item has its key |
| Stats.LogStatsCollector.ProcessStream | src/stats.py:13-30 | hands every item on unchanged and in order; the total grows by the stream's length and each counter is the counter after the stream |
| Stats.LogStatsCollector.PrintReport | src/stats.py:32-49 | the report has the total and at most five addresses, then every status and every method. Each list is in descending count, lists no key twice and only positive counts, and the full lists are permutations of their counters |
| Exporters.Cell | src/exporters.py:16-20 | `DictWriter` defaults: a missing key and a `None` value both give an empty cell |
| Exporters.Row | src/exporters.py:18-20 | one cell per header column, in header order |
| Exporters.CsvOf | src/exporters.py:5-20 | no file for an empty stream; otherwise the header row (the first item's keys) and the rows up to the first item with a key outside the header, where `DictWriter` raises |
| Exporters.FitCount | src/exporters.py:18-20 | the number of items written before the first one with a key outside the header |
| Exporters.ExportToCsv | src/exporters.py:5-20 | the loop leaves exactly `CsvOf`: no file for an empty stream; otherwise the header row and one row per item, stopping at an item that raises |
| Exporters.CsvRowsFollowHeader | src/exporters.py:13-20 | the first row is the first item's keys in its key order; the table has every row exactly when every item fits the header |
| Exporters.CsvCellsByColumn | src/exporters.py:16-20 | a row's cells follow the header's column order, not the item's key order |
| Exporters.CsvWritesEveryFittingItem | src/exporters.py:17-20 | when every item's keys are in the header, the file is the header and one row per item, in stream order |
| Exporters.ReadRow | src/exporters.py:16 | a `csv.DictReader` stand-in, not part of the program: the reference reader for `CsvRowReadsBack`, which reads a row back under the header given to `DictWriter` |
| Exporters.CsvRowReadsBack | src/exporters.py:16-20 | reading a written row back gives every value of the item under its own key, with `None` read back as the empty string |
| Exporters.Dumps | src/exporters.py:31 | `json.dump` of each item, in stream order, one piece per item |
| Exporters.JsonFile | src/exporters.py:25-33 | `[`, the dumps separated by `,` and a newline, then `]`, each on its own line; `JsonRoundTrip` reads it back |
| Exporters.ExportToJson | src/exporters.py:22-33 | the file is `"[\n"` + the dumps joined by `",\n"` + `"\n]\n"`; an empty stream gives `"[\n\n]\n"` |
| Exporters.JsonFileLines | src/exporters.py:26-33 | the file's lines are `[`, the dumps with a comma after all but the last, `]`, then the empty rest |
| Exporters.SplitJoin | src/exporters.py:26-33 | splitting newline-joined lines gives them back |
| Exporters.JoinCommaed | src/exporters.py:29-31 | the separators come only between dumps: no leading and no trailing comma |
| Exporters.UncommaCommaed | src/exporters.py:29-31 | removing those commas gives the dumps back |
| Exporters.JsonRoundTrip | src/exporters.py:22-33 | reading the file back gives every dump once, in stream order, as long as each dump is one non-empty line |
| Cli.Given | src/cli.py:37 | `if args.x:` on an optional string: an empty string counts as missing (also at lines 45 and 60; the test at line 62 is the `Option` test in `InferOutFormat`) |
| Cli.PatternFor | src/cli.py:41-48 | `nginx` gives the built-in pattern, `regex` the compiled `--regex` |
| Cli.InferOutFormat | src/cli.py:60-69 | an explicit `--out-format` wins. Without it, `.csv` gives CSV, `.json` gives JSON, and anything else gives no format |
| Cli.UpperCaseExtensionIsUnknown | src/cli.py:63-69 | the extension test is case-sensitive: `.CSV` is not recognised |
| Cli.Run | src/cli.py:25-92 | `main` as a function of the arguments and the input lines: serve, validation exits, stream set-up, drain and report; `ValidationOrder`, `OneSink`, `ReportCountsTheStream` and `RunNeverRaises` pin it down |
| Cli.Drained | src/cli.py:59-88 | step 4: the export when `--out` is given (after the format check), printing for `parse`, a draining loop for `analyze` |
| Cli.ReportOf | src/cli.py:91-92 | the report `print_report` prints after the collector has seen the whole stream |
| Cli.ExitStatus | src/cli.py:30-92 | status 0 for a served or finished run; 1 for the argument errors at lines 37-39, 45-47 and 68-69, or for an uncaught `ValueError` from the CSV export at line 73 |
| Cli.DrainStream | src/cli.py:60-88 | drains the stream as `Drained` says: into the export, onto standard output for `parse`, or into nothing |
| Cli.RunCommand | src/cli.py:30-92 | runs the pipeline to exactly the outcome `Run` describes |
| Cli.ValidationOrder | src/cli.py:30-47 | `serve` ignores the rest; otherwise a missing input file, then a missing `--regex`, then an unknown output format stop the run, each exactly when its condition holds |
| Cli.DrainedOneSink | src/cli.py:60-88 | exactly one sink drains the stream; records are printed only by `parse` without `--out` |
| Cli.OneSink | src/cli.py:54-92 | a finished run exports if and only if `--out` is given, prints the stream if and only if it is `parse` without `--out`, and reports if and only if it is `analyze`, on the whole stream |
| Cli.ReportCountsTheStream | src/cli.py:54-57 | the report counts every record of the stream. Every listed entry's count is the number of records holding its value, and the status and method lists include every value seen |
| Cli.FullListingHoldsEverySeen | src/stats.py:42-47 | the full `most_common()` lists include every value some record holds |
| Cli.ListedCounts | src/stats.py:38-47 | each listed count is the number of records holding that value, and is positive |
| Cli.ParsedStreamFitsCsv | src/cli.py:71-74 | every record from one parser has the pattern's group names as its keys, so the CSV export writes the whole table |
| Cli.RunNeverRaises | src/cli.py:71-74 | no run of the program ends in the CSV writer's `ValueError` |
| Cli.JsonExportReadsBack | src/cli.py:75-77 | a JSON export reads back into the dumps of the parsed records, in order |

## Left out

- Reading files and writing them are not modelled:
  - The input file is given as its lines.
  - The CSV file is its list of rows of cells, without `csv` quoting.
  - The JSON file is its text, with `json.dump` of one record passed in as a function.
  - A missing input file (raised lazily, at the first pull) and encoding errors are not modelled.
- The stream is lazy in the program and a sequence here. Two things follow:
  - The interleaving of collector updates with exporter writes is not modelled.
  - A failing CSV export would have left the stats counting one item past the last row written. This cannot be observed, because the failure ends the run before the report. `Stats.TalliedAppend` states what a partial pull leaves.
- The general regular-expression engine and `re.compile` errors are not modelled. A custom pattern is a list of group names and a matcher function, so the concrete custom-pattern test (tests/test_parser.py:35-43) is covered only by `Parser.ParseLineLookup` for all patterns.
- `\d` in the built-in pattern is modelled as ASCII `0`-`9`. Python's `str` patterns also accept other Unicode decimal digits.
- `serve` and the Flask application (src/app.py), the Streamlit dashboard and the `threading` import are not modelled. `serve` is a distinct outcome with exit status 0.
- The text that `print` writes (the report layout, the "Data successfully exported" messages, the `repr` of printed records) is not modelled. The model keeps what is printed as values.
