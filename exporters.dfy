/// The two sinks of the record stream: a CSV table whose columns are the first
/// record's keys, and a JSON array written one record at a time.  The text a
/// CSV row becomes (quoting, escaping) and the text `json.dump` gives one
/// record are not modelled: a CSV file is its list of rows of cells, and the
/// dump of a record is a parameter.
module Exporters {
  import opened Text
  import opened Records

  // ------------------------------------------------------------------- CSV

  /** `DictWriter` with its defaults: a missing key gives `restval`, the
      empty string, and a `None` value is written as the empty string. */
  function Cell(item: Record, column: string): string {
    match Lookup(item, column)
    case None => ""
    case Some(None) => ""
    case Some(Some(s)) => s
  }

  /** The cells of one data row, in header order. */
  function Row(item: Record, header: seq<string>): (row: seq<string>)
    ensures |row| == |header|
  {
    seq(|header|, j requires 0 <= j < |header| => Cell(item, header[j]))
  }

  /** `writerow` raises `ValueError` for an item with a key outside the
      header (`extrasaction="raise"`). */
  predicate FitsHeader(item: Record, header: seq<string>) {
    forall i :: 0 <= i < |item| ==> item[i].name in header
  }

  /** How many items, from the front, are written before one does not fit. */
  function FitCount(items: seq<Record>, header: seq<string>): (k: nat)
    ensures k <= |items|
    ensures forall i :: 0 <= i < k ==> FitsHeader(items[i], header)
    ensures k < |items| ==> !FitsHeader(items[k], header)
  {
    if items == [] || !FitsHeader(items[0], header) then 0
    else 1 + FitCount(items[1..], header)
  }

  function Rows(items: seq<Record>, header: seq<string>): (rows: seq<seq<string>>)
    ensures |rows| == |items|
  {
    seq(|items|, i requires 0 <= i < |items| => Row(items[i], header))
  }

  /** What the CSV sink leaves behind: no file at all for an empty stream,
      the complete table, or the rows written before `writerow` raised. */
  datatype CsvOutcome = NoFile | Written(rows: seq<seq<string>>) | RowError(rows: seq<seq<string>>)

  /** The table for a stream: the header row (the first item's keys, in its
      key order) and one row per item up to the first that does not fit. */
  function CsvOf(data: seq<Record>): CsvOutcome {
    if data == [] then NoFile
    else
      var header := Keys(data[0]);
      var k := FitCount(data, header);
      var rows := [header] + Rows(data[..k], header);
      if k == |data| then Written(rows) else RowError(rows)
  }

  /** `export_to_csv`: takes the header from the first item, writes it and
      the first item's row, then one row per remaining item. */
  method ExportToCsv(data: seq<Record>) returns (outcome: CsvOutcome)
    ensures outcome == CsvOf(data)
  {
    if |data| == 0 {
      return NoFile;
    }
    var first := data[0];
    var header := Keys(first);
    assert FitsHeader(first, header);
    var rows := [header];
    rows := rows + [Row(first, header)];
    var i := 1;
    while i < |data|
      invariant 1 <= i <= |data|
      invariant forall j :: 0 <= j < i ==> FitsHeader(data[j], header)
      invariant rows == [header] + Rows(data[..i], header)
    {
      if !FitsHeader(data[i], header) {
        FitCountAt(data, header, i);
        return RowError(rows);
      }
      assert Rows(data[..i + 1], header) == Rows(data[..i], header) + [Row(data[i], header)];
      rows := rows + [Row(data[i], header)];
      i := i + 1;
    }
    FitCountAt(data, header, |data|);
    assert data[..|data|] == data;
    return Written(rows);
  }

  /** The items before `k` fit and the one at `k` does not (or the stream
      ends there): then `k` is the number written. */
  lemma {:induction false} FitCountAt(items: seq<Record>, header: seq<string>, k: nat)
    requires k <= |items|
    requires forall j :: 0 <= j < k ==> FitsHeader(items[j], header)
    requires k < |items| ==> !FitsHeader(items[k], header)
    ensures FitCount(items, header) == k
  {
    if k > 0 {
      assert FitsHeader(items[0], header);
      forall j | 0 <= j < k - 1
        ensures FitsHeader(items[1..][j], header)
      {
        assert items[1..][j] == items[j + 1];
      }
      FitCountAt(items[1..], header, k - 1);
    }
  }

  /** The table's first row is the first item's keys, and only a failing
      item stops the table short of one row per item. */
  lemma CsvRowsFollowHeader(data: seq<Record>)
    requires data != []
    ensures CsvOf(data).rows[0] == Keys(data[0])
    ensures |CsvOf(data).rows| == FitCount(data, Keys(data[0])) + 1 >= 2
    ensures CsvOf(data).Written? <==> forall i :: 0 <= i < |data| ==> FitsHeader(data[i], Keys(data[0]))
  {
    assert FitsHeader(data[0], Keys(data[0]));
  }

  /** A data row holds, for each column, the item's value under that
      column's key, whatever order the item's own keys are in. */
  lemma CsvCellsByColumn(data: seq<Record>, i: nat, j: nat)
    requires data != [] && i < FitCount(data, Keys(data[0])) && j < |data[0]|
    ensures CsvOf(data).rows[i + 1][j] == Cell(data[i], data[0][j].name)
  {
    var header := Keys(data[0]);
    var rows := [header] + Rows(data[..FitCount(data, header)], header);
    assert CsvOf(data).rows == rows;
    assert rows[i + 1] == Row(data[i], header);
  }

  /** A stream whose items all have keys among the first item's writes the
      whole table: the header and one row per item. */
  lemma CsvWritesEveryFittingItem(data: seq<Record>)
    requires data != []
    requires forall i :: 0 <= i < |data| ==> FitsHeader(data[i], Keys(data[0]))
    ensures CsvOf(data) == Written([Keys(data[0])] + Rows(data, Keys(data[0])))
  {
    FitCountAt(data, Keys(data[0]), |data|);
    assert data[..|data|] == data;
  }

  /** `csv.DictReader` on a row of the table: the header's keys with the
      row's cells as values. */
  function ReadRow(header: seq<string>, row: seq<string>): (r: Record)
    requires |row| == |header|
    ensures Keys(r) == header
  {
    seq(|header|, j requires 0 <= j < |header| => Field(header[j], Some(row[j])))
  }

  /** Reading a written row back gives every value the item holds, under the
      same key; `None` comes back as the empty string. */
  lemma CsvRowReadsBack(item: Record, header: seq<string>, i: nat)
    requires DistinctKeys(item) && FitsHeader(item, header) && i < |item|
    requires forall a, b :: 0 <= a < b < |header| ==> header[a] != header[b]
    ensures Lookup(ReadRow(header, Row(item, header)), item[i].name)
      == Some(Some(if item[i].value.Some? then item[i].value.value else ""))
  {
    var r := ReadRow(header, Row(item, header));
    var j :| 0 <= j < |header| && header[j] == item[i].name;
    assert r[j] == Field(header[j], Some(Cell(item, header[j])));
    LookupAt(r, j);
    LookupAt(item, i);
  }

  // ------------------------------------------------------------------ JSON

  /** The JSON file for the dumped items: an array with one item per line
      (section 5 of RFC 8259). */
  function JsonFile(pieces: seq<string>): string {
    "[\n" + Join(",\n", pieces) + "\n]\n"
  }

  function Dumps(data: seq<Record>, dump: Record -> string): (pieces: seq<string>)
    ensures |pieces| == |data|
  {
    seq(|data|, i requires 0 <= i < |data| => dump(data[i]))
  }

  /** `export_to_json`: the opening bracket, then each item's dump, preceded
      by a separator for all but the first, then the closing bracket. */
  method ExportToJson(data: seq<Record>, dump: Record -> string) returns (text: string)
    ensures text == JsonFile(Dumps(data, dump))
    ensures data == [] ==> text == "[\n\n]\n"
  {
    text := "[\n";
    var first := true;
    for i := 0 to |data|
      invariant first <==> i == 0
      invariant text == "[\n" + Join(",\n", Dumps(data[..i], dump))
    {
      assert Dumps(data[..i + 1], dump) == Dumps(data[..i], dump) + [dump(data[i])];
      JoinSnoc(",\n", Dumps(data[..i], dump), dump(data[i]));
      if !first {
        text := text + ",\n";
      }
      text := text + dump(data[i]);
      first := false;
    }
    assert data[..|data|] == data;
    text := text + "\n]\n";
  }

  /** `s.split("\n")` */
  function SplitLines(s: string): (ls: seq<string>)
    ensures |ls| >= 1
  {
    if s == [] then [""]
    else
      var rest := SplitLines(s[1..]);
      if s[0] == '\n' then [""] + rest else [[s[0]] + rest[0]] + rest[1..]
  }

  /** Each dump but the last followed by a comma. */
  function Commaed(pieces: seq<string>): (ls: seq<string>)
    ensures |ls| == |pieces|
  {
    if |pieces| <= 1 then pieces else [pieces[0] + ","] + Commaed(pieces[1..])
  }

  /** The lines between the brackets, each but the last without its comma. */
  function Uncomma(lines: seq<string>): Option<seq<string>>
    requires lines != []
  {
    if |lines| == 1 then Some(lines)
    else if !EndsWith(lines[0], ",") then None
    else match Uncomma(lines[1..])
      case None => None
      case Some(rest) => Some([lines[0][..|lines[0]| - 1]] + rest)
  }

  /** Reads the dumps back from a file the JSON sink wrote. */
  function JsonItems(text: string): Option<seq<string>> {
    var lines := SplitLines(text);
    if |lines| < 4 || lines[0] != "[" || lines[|lines| - 2] != "]" || lines[|lines| - 1] != "" then None
    else if lines[1..|lines| - 2] == [""] then Some([])
    else Uncomma(lines[1..|lines| - 2])
  }

  /** A line without a newline, a newline and the rest split into that line
      followed by the rest's lines. */
  lemma {:induction false} SplitAfterLine(a: string, b: string)
    requires NoNewline(a)
    ensures SplitLines(a + "\n" + b) == [a] + SplitLines(b)
  {
    if a == [] {
      assert (a + "\n" + b)[1..] == b;
    } else {
      assert (a + "\n" + b)[1..] == a[1..] + "\n" + b;
      SplitAfterLine(a[1..], b);
      assert [a[0]] + a[1..] == a;
    }
  }

  lemma {:induction false} SplitOneLine(a: string)
    requires NoNewline(a)
    ensures SplitLines(a) == [a]
  {
    if a != [] {
      SplitOneLine(a[1..]);
      assert [a[0]] + a[1..] == a;
    }
  }

  /** Splitting lines joined by newlines gives the lines back. */
  lemma {:induction false} SplitJoin(xs: seq<string>)
    requires xs != []
    requires forall i :: 0 <= i < |xs| ==> NoNewline(xs[i])
    ensures SplitLines(Join("\n", xs)) == xs
  {
    if |xs| == 1 {
      SplitOneLine(xs[0]);
    } else {
      SplitJoin(xs[1..]);
      SplitAfterLine(xs[0], Join("\n", xs[1..]));
    }
  }

  /** Joining with a comma and a newline is putting a comma after each piece
      but the last and joining with newlines. */
  lemma {:induction false} JoinCommaed(pieces: seq<string>)
    ensures Join(",\n", pieces) == Join("\n", Commaed(pieces))
  {
    if |pieces| >= 2 {
      JoinCommaed(pieces[1..]);
      var rest := Join("\n", Commaed(pieces[1..]));
      assert Commaed(pieces)[1..] == Commaed(pieces[1..]);
      assert pieces[0] + ",\n" + rest == (pieces[0] + ",") + "\n" + rest;
    }
  }

  lemma {:induction false} UncommaCommaed(pieces: seq<string>)
    requires pieces != []
    ensures Uncomma(Commaed(pieces)) == Some(pieces)
  {
    if |pieces| >= 2 {
      var lines := Commaed(pieces);
      assert lines[0] == pieces[0] + ",";
      assert lines[0][..|lines[0]| - 1] == pieces[0];
      assert lines[1..] == Commaed(pieces[1..]);
      UncommaCommaed(pieces[1..]);
      assert [pieces[0]] + pieces[1..] == pieces;
    }
  }

  /** The lines of a JSON file: the opening bracket, the items with their
      commas (one empty line when there are none), the closing bracket and
      the empty rest after the final newline. */
  lemma JsonFileLines(pieces: seq<string>)
    ensures var body := if pieces == [] then [""] else Commaed(pieces);
      JsonFile(pieces) == Join("\n", ["["] + body + ["]", ""])
  {
    var body := if pieces == [] then [""] else Commaed(pieces);
    var j := Join("\n", body);
    JoinCommaed(pieces);
    assert j == Join(",\n", pieces);
    var a := ["["] + body;
    assert a[1..] == body;
    assert Join("\n", a) == "[" + "\n" + j;
    JoinSnoc("\n", a, "]");
    JoinSnoc("\n", a + ["]"], "");
    assert a + ["]"] + [""] == ["["] + body + ["]", ""];
    BracketLines(j);
  }

  /** The brackets of the file, each on its own line around `j`. */
  lemma BracketLines(j: string)
    ensures "[\n" + j + "\n]\n" == "[" + "\n" + j + "\n" + "]" + "\n" + ""
  {
  }

  /** Reading a JSON file back gives the dumped items, in stream order, as
      long as each dump is one non-empty line (as `json.dump` writes a record:
      an object, with any newline inside a string escaped). */
  lemma JsonRoundTrip(pieces: seq<string>)
    requires forall i :: 0 <= i < |pieces| ==> pieces[i] != "" && NoNewline(pieces[i])
    ensures JsonItems(JsonFile(pieces)) == Some(pieces)
  {
    var body := if pieces == [] then [""] else Commaed(pieces);
    var lines := ["["] + body + ["]", ""];
    JsonFileLines(pieces);
    forall i | 0 <= i < |body|
      ensures NoNewline(body[i])
    {
      if pieces != [] {
        CommaedAt(pieces, i);
      }
    }
    assert forall i :: 0 <= i < |lines| ==> NoNewline(lines[i]);
    SplitJoin(lines);
    assert lines[1..|lines| - 2] == body;
    if pieces != [] {
      UncommaCommaed(pieces);
      assert body != [""] by {
        if |pieces| == 1 {
          assert body[0] == pieces[0];
        }
      }
    }
  }

  lemma {:induction false} CommaedAt(pieces: seq<string>, i: nat)
    requires i < |pieces|
    ensures Commaed(pieces)[i] == if i < |pieces| - 1 then pieces[i] + "," else pieces[i]
  {
    if |pieces| >= 2 && i > 0 {
      CommaedAt(pieces[1..], i - 1);
    }
  }
}
