/// The command-line front end: it checks the arguments, chooses the parser,
/// puts the statistics collector into the stream for `analyze`, and drains
/// the stream into an export file, onto standard output, or into nothing.
/// The command line is taken as argparse leaves it (the `choices` already
/// enforced); the input file is given as its lines, `re.compile` and
/// `json.dump` as functions.
module Cli {
  import opened Text
  import opened Records
  import opened Parser
  import Nginx
  import opened Counter
  import opened Stats
  import opened Exporters

  datatype Command = Parse | Analyze | Serve
  datatype LogFormat = NginxFormat | RegexFormat
  datatype OutFormat = Csv | Json

  datatype Args = Args(
    command: Command,
    inputFile: Option<string>,
    format: LogFormat,
    regex: Option<string>,
    out: Option<string>,
    outFormat: Option<OutFormat>)

  /** `if args.x:` on an optional string argument: an empty string is as
      good as a missing one. */
  predicate Given(arg: Option<string>) {
    arg.Some? && arg.value != ""
  }

  /** The output format: `--out-format` when given, otherwise taken from the
      extension of `--out`, compared case-sensitively; `None` when neither
      decides. */
  function InferOutFormat(out: string, outFormat: Option<OutFormat>): (r: Option<OutFormat>)
    ensures outFormat.Some? ==> r == outFormat
    ensures outFormat.None? ==> (r == Some(Csv) <==> EndsWith(out, ".csv"))
    ensures outFormat.None? ==> (r == Some(Json) <==> EndsWith(out, ".json"))
    ensures r.None? <==> outFormat.None? && !EndsWith(out, ".csv") && !EndsWith(out, ".json")
  {
    if outFormat.Some? then outFormat
    else if EndsWith(out, ".csv") then
      assert out[|out| - 1] == 'v';
      Some(Csv)
    else if EndsWith(out, ".json") then Some(Json)
    else None
  }

  /** The extension test does not fold case. */
  lemma UpperCaseExtensionIsUnknown()
    ensures InferOutFormat("access.CSV", None) == None
    ensures InferOutFormat("access.csv", None) == Some(Csv)
  {
    assert "access.CSV"[6..] == ".CSV";
    assert "access.CSV"[5..] == "s.CSV";
    assert "access.csv"[6..] == ".csv";
  }

  /** The argument errors, each ending the program with status 1. */
  datatype UsageError = MissingInput | MissingRegex | UnknownOutFormat

  /** Where the drained stream went. */
  datatype Export = ToCsv(csv: CsvOutcome) | ToJson(text: string)

  /** How a run ends: the web server was started; an argument error; the
      stream drained, with the records printed one per line, the export
      file and the statistics report; or `writerow` raised, leaving the rows
      written so far in the file and nothing else done. */
  datatype Outcome =
    | Served
    | Usage(error: UsageError)
    | Finished(printed: seq<Record>, exported: Option<Export>, report: Option<Report>)
    | ExportRaised(rows: seq<seq<string>>)

  /** The process exit status; an uncaught exception exits with status 1. */
  function ExitStatus(o: Outcome): (status: int)
    ensures status == 0 <==> o.Served? || o.Finished?
    ensures status == 1 <==> o.Usage? || o.ExportRaised?
  {
    match o
    case Served => 0
    case Usage(_) => 1
    case Finished(_, _, _) => 0
    case ExportRaised(_) => 1
  }

  /** The pattern of the chosen parser. */
  function PatternFor(args: Args, compile: string -> Pattern): Pattern
    requires args.format == RegexFormat ==> args.regex.Some?
  {
    if args.format == NginxFormat then Nginx.NginxPattern else compile(args.regex.value)
  }

  /** What `print_report` prints after the collector has seen `records`. */
  function ReportOf(records: seq<Record>): Report {
    Report(|records|,
           MostCommon(Tallied([], records, "ip"), Some(5)),
           MostCommon(Tallied([], records, "status"), None),
           MostCommon(Tallied([], records, "method"), None))
  }

  /** Draining the stream of `records`: into the export file when `--out`
      is given (after the output format is settled), onto standard output
      for `parse`, and into nothing for `analyze`.  The report is added by
      the caller. */
  function Drained(args: Args, records: seq<Record>, dump: Record -> string): Outcome {
    if Given(args.out) then
      match InferOutFormat(args.out.value, args.outFormat)
      case None => Usage(UnknownOutFormat)
      case Some(Csv) =>
        (match CsvOf(records)
         case RowError(rows) => ExportRaised(rows)
         case csv => Finished([], Some(ToCsv(csv)), None))
      case Some(Json) => Finished([], Some(ToJson(JsonFile(Dumps(records, dump)))), None)
    else Finished(if args.command == Parse then records else [], None, None)
  }

  /** A run of the program on `args` with an input file of `lines`. */
  function Run(args: Args, lines: seq<string>, compile: string -> Pattern, dump: Record -> string): Outcome {
    if args.command == Serve then Served
    else if !Given(args.inputFile) then Usage(MissingInput)
    else if args.format == RegexFormat && !Given(args.regex) then Usage(MissingRegex)
    else
      var records := ParsedLines(LineParser(PatternFor(args, compile)), lines);
      match Drained(args, records, dump)
      case Finished(printed, exported, _) =>
        Finished(printed, exported, if args.command == Analyze then Some(ReportOf(records)) else None)
      case other => other
  }

  /** Step 4 of `main`: the stream is consumed by the export, by printing,
      or by a loop that drops every item. */
  method DrainStream(args: Args, stream: seq<Record>, dump: Record -> string) returns (outcome: Outcome)
    ensures outcome == Drained(args, stream, dump)
  {
    if Given(args.out) {
      var outFormat := InferOutFormat(args.out.value, args.outFormat);
      if outFormat == None {
        return Usage(UnknownOutFormat);
      }
      if outFormat == Some(Csv) {
        var csv := ExportToCsv(stream);
        if csv.RowError? {
          return ExportRaised(csv.rows);
        }
        return Finished([], Some(ToCsv(csv)), None);
      } else {
        var text := ExportToJson(stream, dump);
        return Finished([], Some(ToJson(text)), None);
      }
    } else if args.command == Parse {
      return Finished(stream, None, None);
    }
    return Finished([], None, None);
  }

  /** `main`: validation first, then the parser's stream, the collector in
      the stream for `analyze`, the stream drained, and finally the report. */
  method RunCommand(args: Args, lines: seq<string>, compile: string -> Pattern, dump: Record -> string)
    returns (outcome: Outcome)
    ensures outcome == Run(args, lines, compile, dump)
  {
    if args.command == Serve {
      return Served;
    }
    if !Given(args.inputFile) {
      return Usage(MissingInput);
    }
    if args.format == RegexFormat && !Given(args.regex) {
      return Usage(MissingRegex);
    }
    var pattern := PatternFor(args, compile);
    var records := ParseFile(LineParser(pattern), lines);
    var stream := records;
    var collector: LogStatsCollector? := null;
    if args.command == Analyze {
      collector := new LogStatsCollector();
      stream := collector.ProcessStream(stream);
    }
    var drained := DrainStream(args, stream, dump);
    if !drained.Finished? {
      return drained;
    }
    var report: Option<Report> := None;
    if collector != null {
      var r := collector.PrintReport();
      assert r == ReportOf(records);
      report := Some(r);
    }
    assert report == if args.command == Analyze then Some(ReportOf(records)) else None;
    return Finished(drained.printed, drained.exported, report);
  }

  // ------------------------------------------------------------ properties

  /** `serve` ignores every other argument; the other commands need an
      input file, and `--format regex` needs a pattern, in that order. */
  lemma ValidationOrder(args: Args, lines: seq<string>, compile: string -> Pattern, dump: Record -> string)
    ensures args.command == Serve <==> Run(args, lines, compile, dump) == Served
    ensures Run(args, lines, compile, dump) == Usage(MissingInput) <==>
      args.command != Serve && !Given(args.inputFile)
    ensures Run(args, lines, compile, dump) == Usage(MissingRegex) <==>
      args.command != Serve && Given(args.inputFile) && args.format == RegexFormat && !Given(args.regex)
    ensures Run(args, lines, compile, dump) == Usage(UnknownOutFormat) <==>
      && args.command != Serve && Given(args.inputFile) && (args.format == RegexFormat ==> Given(args.regex))
      && Given(args.out) && args.outFormat.None?
      && !EndsWith(args.out.value, ".csv") && !EndsWith(args.out.value, ".json")
  {
  }

  /** Exactly one sink drains the stream: the export file when `--out` is
      given, standard output for `parse` without it, and nothing for
      `analyze` without it. */
  lemma DrainedOneSink(args: Args, records: seq<Record>, dump: Record -> string)
    requires Drained(args, records, dump).Finished?
    ensures var o := Drained(args, records, dump);
      && (o.exported.Some? <==> Given(args.out))
      && (o.printed != [] ==> args.command == Parse && !Given(args.out))
      && (args.command == Parse && !Given(args.out) ==> o.printed == records)
  {
  }

  /** A run that gets through drains the parser's stream into one sink, and
      the report comes exactly with `analyze`. */
  lemma OneSink(args: Args, lines: seq<string>, compile: string -> Pattern, dump: Record -> string)
    requires Run(args, lines, compile, dump).Finished?
    ensures var o := Run(args, lines, compile, dump);
      && (o.exported.Some? <==> Given(args.out))
      && (o.printed != [] ==> args.command == Parse && !Given(args.out))
      && (args.command == Parse && !Given(args.out) ==>
            o.printed == ParsedLines(LineParser(PatternFor(args, compile)), lines))
      && (o.report.Some? <==> args.command == Analyze)
      && (o.report.Some? ==> o.report.value == ReportOf(ParsedLines(LineParser(PatternFor(args, compile)), lines)))
  {
    var records := ParsedLines(LineParser(PatternFor(args, compile)), lines);
    var d := Drained(args, records, dump);
    var report := if args.command == Analyze then Some(ReportOf(records)) else None;
    assert d.Finished?;
    assert Run(args, lines, compile, dump) == Finished(d.printed, d.exported, report);
    DrainedOneSink(args, records, dump);
  }

  /** The report of `analyze` counts every record of the stream, and every
      listed entry carries the number of records holding that value; the
      status and method listings hold every value seen. */
  lemma ReportCountsTheStream(records: seq<Record>)
    ensures var r := ReportOf(records);
      && r.totalRequests == |records|
      && (forall i :: 0 <= i < |r.topIps| ==>
            r.topIps[i].count == multiset(FieldValues(records, "ip"))[Some(r.topIps[i].key)] > 0)
      && (forall i :: 0 <= i < |r.statuses| ==>
            r.statuses[i].count == multiset(FieldValues(records, "status"))[Some(r.statuses[i].key)] > 0)
      && (forall i :: 0 <= i < |r.methods| ==>
            r.methods[i].count == multiset(FieldValues(records, "method"))[Some(r.methods[i].key)] > 0)
      && (forall v :: Some(v) in FieldValues(records, "status") ==> v in KeysOf(r.statuses))
      && (forall v :: Some(v) in FieldValues(records, "method") ==> v in KeysOf(r.methods))
  {
    var r := ReportOf(records);
    ListedCounts(records, "ip", Some(5));
    ListedCounts(records, "status", None);
    ListedCounts(records, "method", None);
    assert r.topIps == MostCommon(Tallied([], records, "ip"), Some(5));
    assert r.statuses == MostCommon(Tallied([], records, "status"), None);
    assert r.methods == MostCommon(Tallied([], records, "method"), None);
    FullListingHoldsEverySeen(records, "status");
    FullListingHoldsEverySeen(records, "method");
  }

  /** The full `most_common()` listing over `field` has an entry for every
      value some record holds there. */
  lemma FullListingHoldsEverySeen(records: seq<Record>, field: string)
    ensures forall v :: Some(v) in FieldValues(records, field) ==>
      v in KeysOf(MostCommon(Tallied([], records, field), None))
  {
    var c := Tallied([], records, field);
    var listed := MostCommon(c, None);
    MostCommonOrder(c, None);
    forall v | Some(v) in FieldValues(records, field)
      ensures v in KeysOf(listed)
    {
      KeysAreSeenValues(records, field, v);
      var j :| 0 <= j < |c| && KeysOf(c)[j] == v;
      assert c[j] in multiset(listed);
      var i :| 0 <= i < |listed| && listed[i] == c[j];
      assert KeysOf(listed)[i] == v;
    }
  }

  /** Each entry of a `most_common` listing over `field` carries the number
      of records whose `field` is its key. */
  lemma ListedCounts(records: seq<Record>, field: string, n: Option<nat>)
    ensures var listed := MostCommon(Tallied([], records, field), n);
      forall i :: 0 <= i < |listed| ==>
        listed[i].count == multiset(FieldValues(records, field))[Some(listed[i].key)] > 0
  {
    var c := Tallied([], records, field);
    var listed := MostCommon(c, n);
    MostCommonOrder(c, n);
    MostCommonOrder(c, None);
    TalliedKeepsOrder([], records, field);
    forall i | 0 <= i < |listed|
      ensures listed[i].count == multiset(FieldValues(records, field))[Some(listed[i].key)] > 0
    {
      assert listed[i] == SortDesc(c)[i];
      assert listed[i] in multiset(SortDesc(c));
      var j :| 0 <= j < |c| && c[j] == listed[i];
      GetAt(c, j);
      CountsAreOccurrences([], records, field, c[j].key);
    }
  }

  /** Every record of a parser's stream has the pattern's group names as
      its keys, so the CSV export never meets a key outside its header and
      writes the header and one row per record; for the built-in parser the
      header is the nine access-log fields. */
  lemma ParsedStreamFitsCsv(p: Pattern, lines: seq<string>)
    ensures var records := ParsedLines(LineParser(p), lines);
      records != [] ==> CsvOf(records) == Written([p.groups] + Rows(records, p.groups))
  {
    var records := ParsedLines(LineParser(p), lines);
    RecordsComeFromOrigins(LineParser(p), lines);
    if records != [] {
      forall i | 0 <= i < |records|
        ensures Keys(records[i]) == p.groups
      {
        var line := Strip(lines[Origins(LineParser(p), lines)[i]]);
        assert Some(records[i]) == ParseLine(p, line);
      }
      forall i | 0 <= i < |records|
        ensures FitsHeader(records[i], Keys(records[0]))
      {
        assert forall j :: 0 <= j < |records[i]| ==> records[i][j].name == Keys(records[i])[j];
      }
      CsvWritesEveryFittingItem(records);
    }
  }

  /** No run of the program ends in the CSV writer's error. */
  lemma RunNeverRaises(args: Args, lines: seq<string>, compile: string -> Pattern, dump: Record -> string)
    ensures !Run(args, lines, compile, dump).ExportRaised?
  {
    if args.command != Serve && Given(args.inputFile) && (args.format == RegexFormat ==> Given(args.regex)) {
      ParsedStreamFitsCsv(PatternFor(args, compile), lines);
    }
  }

  /** A JSON export can be read back into the dumps of the stream's records,
      in stream order, whenever every dump is one non-empty line. */
  lemma JsonExportReadsBack(args: Args, lines: seq<string>, compile: string -> Pattern, dump: Record -> string)
    requires forall r: Record :: dump(r) != "" && NoNewline(dump(r))
    requires Run(args, lines, compile, dump).Finished?
    requires Run(args, lines, compile, dump).exported.Some? && Run(args, lines, compile, dump).exported.value.ToJson?
    ensures JsonItems(Run(args, lines, compile, dump).exported.value.text)
      == Some(Dumps(ParsedLines(LineParser(PatternFor(args, compile)), lines), dump))
  {
    var records := ParsedLines(LineParser(PatternFor(args, compile)), lines);
    var d := Drained(args, records, dump);
    assert d.Finished? && Run(args, lines, compile, dump).exported == d.exported;
    assert d.exported == Some(ToJson(JsonFile(Dumps(records, dump))));
    JsonRoundTrip(Dumps(records, dump));
  }
}
