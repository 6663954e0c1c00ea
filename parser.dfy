/// The generic line parser (`RegexLogParser`) and the file filter
/// (`BaseLogParser.parse_file`).
module Parser {
  import opened Text
  import opened Records

  /** A compiled pattern: its named groups in the order they appear, and the
      matcher that `re.match` runs, anchored at the start of the line only.
      The matcher gives the text of every group in group order, `None` for a
      group that did not take part in the match.  The general regular
      expression engine stands here as this function; the built-in access-log
      pattern is written out in module Nginx. */
  datatype Pattern = Pattern(groups: seq<string>, matcher: string -> Option<seq<Value>>)

  /** `match.groupdict()`: one key per named group, in group order, including
      the groups that did not take part. */
  function GroupDict(groups: seq<string>, captures: seq<Value>): (r: Record)
    ensures Keys(r) == groups
    ensures forall i :: 0 <= i < |groups| && i < |captures| ==> r[i].value == captures[i]
  {
    seq(|groups|, i requires 0 <= i < |groups| => Field(groups[i], if i < |captures| then captures[i] else None))
  }

  /** `RegexLogParser.parse_line`: never fails on malformed input; no match
      gives `None`, a match gives a record keyed by exactly the pattern's
      named groups. */
  function ParseLine(p: Pattern, line: string): (r: Option<Record>)
    ensures r.None? <==> p.matcher(line).None?
    ensures r.Some? ==> Keys(r.value) == p.groups
    ensures r.Some? ==> forall i :: 0 <= i < |p.groups| && i < |p.matcher(line).value| ==>
      r.value[i].value == p.matcher(line).value[i]
  {
    match p.matcher(line)
    case None => None
    case Some(captures) => Some(GroupDict(p.groups, captures))
  }

  /** A matched line's dict gives, under each group name, the text that
      group captured (`None` for a group that did not take part); the
      pattern's group names are distinct, as `re.compile` demands. */
  lemma ParseLineLookup(p: Pattern, line: string, i: nat)
    requires p.matcher(line).Some? && |p.matcher(line).value| == |p.groups|
    requires forall a, b :: 0 <= a < b < |p.groups| ==> p.groups[a] != p.groups[b]
    requires i < |p.groups|
    ensures Lookup(ParseLine(p, line).value, p.groups[i]) == Some(p.matcher(line).value[i])
  {
    var r := ParseLine(p, line).value;
    assert Keys(r) == p.groups;
    LookupAt(r, i);
  }

  /** `parse_line` of the parser built from `p`, as the value `parse_file`
      calls for every line. */
  function LineParser(p: Pattern): string -> Option<Record> {
    line => ParseLine(p, line)
  }

  /** `if parsed:` — both `None` and the empty dict are false. */
  predicate Truthy(parsed: Option<Record>) {
    parsed.Some? && parsed.value != []
  }

  /** What one raw line of the file contributes to the stream. */
  function Kept(parseLine: string -> Option<Record>, line: string): seq<Record> {
    var parsed := parseLine(Strip(line));
    if Truthy(parsed) then [parsed.value] else []
  }

  /** The records `parse_file` yields for a file whose lines are `lines`,
      where `parseLine` is the parser's own `parse_line`. */
  function ParsedLines(parseLine: string -> Option<Record>, lines: seq<string>): seq<Record> {
    if lines == [] then [] else ParsedLines(parseLine, lines[..|lines| - 1]) + Kept(parseLine, lines[|lines| - 1])
  }

  /** `BaseLogParser.parse_file`: strip each line, parse it, keep the truthy
      results, in file order. */
  method ParseFile(parseLine: string -> Option<Record>, lines: seq<string>) returns (records: seq<Record>)
    ensures records == ParsedLines(parseLine, lines)
  {
    records := [];
    for i := 0 to |lines|
      invariant records == ParsedLines(parseLine, lines[..i])
    {
      assert lines[..i + 1][..i] == lines[..i];
      var parsed := parseLine(Strip(lines[i]));
      if Truthy(parsed) {
        records := records + [parsed.value];
      }
    }
    assert lines[..|lines|] == lines;
  }

  /** The stream of a file is the stream of its first part followed by the
      stream of the rest: what a consumer has pulled after k lines is the
      stream of those k lines. */
  lemma {:induction false} ParsedLinesAppend(parseLine: string -> Option<Record>, a: seq<string>, b: seq<string>)
    ensures ParsedLines(parseLine, a + b) == ParsedLines(parseLine, a) + ParsedLines(parseLine, b)
  {
    if b != [] {
      assert (a + b)[..|a + b| - 1] == a + b[..|b| - 1];
      ParsedLinesAppend(parseLine, a, b[..|b| - 1]);
    } else {
      assert a + b == a;
    }
  }

  /** The positions of the lines that produce a record: one per record,
      each a line position, in increasing order. */
  function Origins(parseLine: string -> Option<Record>, lines: seq<string>): (os: seq<int>)
    ensures |os| == |ParsedLines(parseLine, lines)| <= |lines|
    ensures forall k :: 0 <= k < |os| ==> 0 <= os[k] < |lines|
    ensures forall k, m :: 0 <= k < m < |os| ==> os[k] < os[m]
  {
    if lines == [] then []
    else
      var last := |lines| - 1;
      Origins(parseLine, lines[..last]) + (if Truthy(parseLine(Strip(lines[last]))) then [last] else [])
  }

  /** The k-th record of the stream is the truthy parse of line `Origins[k]`. */
  lemma {:induction false} RecordsComeFromOrigins(parseLine: string -> Option<Record>, lines: seq<string>)
    ensures forall k :: 0 <= k < |Origins(parseLine, lines)| ==>
      && ParsedLines(parseLine, lines)[k] != []
      && Some(ParsedLines(parseLine, lines)[k]) == parseLine(Strip(lines[Origins(parseLine, lines)[k]]))
  {
    if lines != [] {
      var n := |lines| - 1;
      var init := lines[..n];
      RecordsComeFromOrigins(parseLine, init);
      var rs0, os0 := ParsedLines(parseLine, init), Origins(parseLine, init);
      var parsed := parseLine(Strip(lines[n]));
      assert Origins(parseLine, lines) == os0 + (if Truthy(parsed) then [n] else []);
      assert ParsedLines(parseLine, lines) == rs0 + (if Truthy(parsed) then [parsed.value] else []);
      var rs, os := ParsedLines(parseLine, lines), Origins(parseLine, lines);
      forall k | 0 <= k < |os|
        ensures rs[k] != [] && Some(rs[k]) == parseLine(Strip(lines[os[k]]))
      {
        if k < |os0| {
          assert rs[k] == rs0[k] && os[k] == os0[k];
          assert init[os0[k]] == lines[os0[k]];
          assert rs0[k] != [] && Some(rs0[k]) == parseLine(Strip(init[os0[k]]));
        } else {
          assert Truthy(parsed);
          assert rs[k] == parsed.value && os[k] == n;
        }
      }
    }
  }

  /** Every line that is not an origin parsed to `None` or to an empty record. */
  lemma {:induction false} OthersAreDropped(parseLine: string -> Option<Record>, lines: seq<string>)
    ensures forall i :: 0 <= i < |lines| && i !in Origins(parseLine, lines) ==> !Truthy(parseLine(Strip(lines[i])))
  {
    if lines != [] {
      var n := |lines| - 1;
      var init := lines[..n];
      OthersAreDropped(parseLine, init);
      var os0 := Origins(parseLine, init);
      var lastKept := Truthy(parseLine(Strip(lines[n])));
      assert Origins(parseLine, lines) == os0 + (if lastKept then [n] else []);
      forall i | 0 <= i < |lines| && i !in Origins(parseLine, lines)
        ensures !Truthy(parseLine(Strip(lines[i])))
      {
        if i < n {
          assert i !in os0 && init[i] == lines[i];
        }
      }
    }
  }

  /** The stream is the order-preserving subsequence of the per-line parses
      that are truthy: the k-th record comes from line `Origins[k]`, the
      positions increase, and every line left out parsed to `None` or to an
      empty record. */
  lemma ParsedLinesAreTruthyParses(parseLine: string -> Option<Record>, lines: seq<string>)
    ensures var rs, os := ParsedLines(parseLine, lines), Origins(parseLine, lines);
      && |os| == |rs| <= |lines|
      && (forall k :: 0 <= k < |os| ==> 0 <= os[k] < |lines| && rs[k] != [] && Some(rs[k]) == parseLine(Strip(lines[os[k]])))
      && (forall k, m :: 0 <= k < m < |os| ==> os[k] < os[m])
      && (forall i :: 0 <= i < |lines| && i !in os ==> !Truthy(parseLine(Strip(lines[i]))))
  {
    RecordsComeFromOrigins(parseLine, lines);
    OthersAreDropped(parseLine, lines);
  }

  /** A pattern without named groups produces only empty records, so a file
      parsed with it yields nothing at all. */
  lemma {:induction false} NoGroupsYieldNothing(p: Pattern, lines: seq<string>)
    requires p.groups == []
    ensures ParsedLines(LineParser(p), lines) == []
  {
    if lines != [] {
      NoGroupsYieldNothing(p, lines[..|lines| - 1]);
    }
  }
}
