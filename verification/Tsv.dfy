/** Tab-separated files as the audit tools read and write them. */
module Tsv {
  import opened Strings

  /** `dict(zip(header, parts))` */
  type Row = map<string, string>

  datatype Table = Table(header: seq<string>, rows: seq<Row>)

  datatype Error =
    | MissingResults
    | EmptyTable
    | MissingColumn(column: string)
    | MissingTemplate(template: string)

  datatype Result<+T> = Success(value: T) | Failure(error: Error) {
    predicate IsFailure() { Failure? }
    function PropagateFailure<U>(): Result<U>
      requires Failure?
    {
      Failure(error)
    }
    function Extract(): T
      requires Success?
    {
      value
    }
  }

  datatype Option<+T> = None | Some(value: T)

  ghost predicate Distinct(columns: seq<string>) {
    forall i, j :: 0 <= i < j < |columns| ==> columns[i] != columns[j]
  }

  /** Later occurrences of a repeated key win. */
  function Zip(header: seq<string>, parts: seq<string>): (row: Row)
    requires |header| <= |parts|
    ensures row.Keys == set c | c in header
  {
    if header == [] then map[]
    else
      var n := |header| - 1;
      assert header == header[..n] + [header[n]];
      Zip(header[..n], parts[..n])[header[n] := parts[n]]
  }

  lemma {:induction false} ZipAt(header: seq<string>, parts: seq<string>, i: nat)
    requires |header| <= |parts| && i < |header| && Distinct(header)
    ensures Zip(header, parts)[header[i]] == parts[i]
  {
    var n := |header| - 1;
    if i < n {
      ZipAt(header[..n], parts[..n], i);
      assert header[..n][i] == header[i];
    }
  }

  /** The last place of a repeated column decides. */
  lemma {:induction false} ZipLast(header: seq<string>, parts: seq<string>, i: nat)
    requires |header| <= |parts| && i < |header|
    requires forall j :: i < j < |header| ==> header[j] != header[i]
    ensures header[i] in Zip(header, parts) && Zip(header, parts)[header[i]] == parts[i]
  {
    var n := |header| - 1;
    if i < n {
      assert header[..n][i] == header[i] && header[n] != header[i];
      ZipLast(header[..n], parts[..n], i);
    }
  }

  function Pad(parts: seq<string>, n: nat): (padded: seq<string>)
    ensures |padded| >= n && |padded| >= |parts|
  {
    if |parts| >= n then parts else parts + seq(n - |parts|, _ => "")
  }

  function ParseRow(header: seq<string>, line: string): Row {
    Zip(header, Pad(Split(line, '\t'), |header|))
  }

  /** A row holds, for each column of the header, the field at the last place of that column, and an empty one where the
      line has no field left; it holds nothing else. */
  lemma ParsedColumn(header: seq<string>, line: string, i: nat)
    requires i < |header| && forall j :: i < j < |header| ==> header[j] != header[i]
    ensures var fields, row := Split(line, '\t'), ParseRow(header, line);
      && row.Keys == (set c | c in header)
      && header[i] in row && row[header[i]] == if i < |fields| then fields[i] else ""
  {
    ZipLast(header, Pad(Split(line, '\t'), |header|), i);
  }

  function ParseRows(header: seq<string>, lines: seq<string>): (rows: seq<Row>)
    ensures |rows| == |lines|
    ensures forall i :: 0 <= i < |rows| ==> rows[i] == ParseRow(header, lines[i])
  {
    if lines == [] then [] else [ParseRow(header, lines[0])] + ParseRows(header, lines[1..])
  }

  lemma {:induction false} ParseRowsAppend(header: seq<string>, a: seq<string>, b: seq<string>)
    ensures ParseRows(header, a + b) == ParseRows(header, a) + ParseRows(header, b)
  {
    if a == [] {
      assert a + b == b;
    } else {
      assert (a + b)[1..] == a[1..] + b;
      ParseRowsAppend(header, a[1..], b);
    }
  }

  lemma ParseRowsSnoc(header: seq<string>, lines: seq<string>, i: nat)
    requires i < |lines|
    ensures ParseRows(header, lines[..i + 1]) == ParseRows(header, lines[..i]) + [ParseRow(header, lines[i])]
  {
    assert lines[..i + 1] == lines[..i] + [lines[i]];
    ParseRowsAppend(header, lines[..i], [lines[i]]);
    assert ParseRows(header, [lines[i]]) == [ParseRow(header, lines[i])];
  }

  /** The first line names the columns, the others are rows. */
  function TableOf(lines: seq<string>): Table {
    if lines == [] then Table([], [])
    else
      var header := Split(lines[0], '\t');
      Table(header, ParseRows(header, lines[1..]))
  }

  /** The lines that `if ln.strip()` lets through. */
  function NonBlankLines(text: string): seq<string> {
    Filter(FileLines(text), HasText)
  }

  /** What `read_tsv` returns. */
  function ReadTable(text: string): Table {
    TableOf(NonBlankLines(text))
  }

  method KeepLinesWithText(all: seq<string>) returns (lines: seq<string>)
    ensures lines == Filter(all, HasText)
  {
    lines := [];
    for i := 0 to |all|
      invariant lines == Filter(all[..i], HasText)
    {
      assert all[..i + 1] == all[..i] + [all[i]];
      FilterAppend(all[..i], [all[i]], HasText);
      if !Blank(all[i]) {
        lines := lines + [all[i]];
      }
    }
    assert all[..|all|] == all;
  }

  method ReadRows(header: seq<string>, lines: seq<string>) returns (rows: seq<Row>)
    ensures rows == ParseRows(header, lines)
  {
    rows := [];
    for i := 0 to |lines|
      invariant rows == ParseRows(header, lines[..i])
    {
      var parts := Split(lines[i], '\t');
      if |parts| < |header| {
        parts := parts + seq(|header| - |parts|, _ => "");
      }
      ParseRowsSnoc(header, lines, i);
      rows := rows + [Zip(header, parts)];
    }
    assert lines[..|lines|] == lines;
  }

  /** `read_tsv` of the registry builder; the probe generator's copy lacks the guard and raises IndexError instead. */
  method ReadTsv(text: string) returns (table: Table)
    ensures table == ReadTable(text)
  {
    var lines := KeepLinesWithText(FileLines(text));
    if lines == [] {
      return Table([], []);
    }
    var header := Split(lines[0], '\t');
    var rows := ReadRows(header, lines[1..]);
    table := Table(header, rows);
  }

  ghost predicate FieldRow(row: Row) {
    forall c :: c in row ==> Field(row[c])
  }

  lemma {:induction false} ZipValues(header: seq<string>, parts: seq<string>)
    requires |header| <= |parts|
    ensures forall c :: c in Zip(header, parts) ==> Zip(header, parts)[c] in parts
  {
    if header != [] {
      var n := |header| - 1;
      assert forall p :: p in parts[..n] ==> p in parts;
      ZipValues(header[..n], parts[..n]);
      assert parts[n] in parts;
    }
  }

  lemma ParseRowFields(header: seq<string>, line: string)
    requires NoBreak(line)
    ensures FieldRow(ParseRow(header, line))
  {
    var parts := Split(line, '\t');
    forall p | p in Pad(parts, |header|) ensures Field(p) {
      if p !in parts {
        assert p == "";
      }
    }
    ZipValues(header, Pad(parts, |header|));
  }

  /** No value that was read from a file can break the file it is written to next. */
  lemma ReadTableFields(text: string)
    ensures forall c :: c in ReadTable(text).header ==> Field(c)
    ensures forall row :: row in ReadTable(text).rows ==> FieldRow(row)
  {
    var lines := NonBlankLines(text);
    if lines != [] {
      var header := Split(lines[0], '\t');
      assert NoBreak(lines[0]);
      forall row | row in ReadTable(text).rows ensures FieldRow(row) {
        var i :| 0 <= i < |lines[1..]| && row == ParseRow(header, lines[1..][i]);
        assert lines[1..][i] in lines;
        ParseRowFields(header, lines[1..][i]);
      }
    }
  }

  // ----- writing -----

  predicate HasColumns(row: Row, columns: seq<string>) {
    forall c :: c in columns ==> c in row
  }

  /** `[row[c] for c in columns]` */
  function Fields(row: Row, columns: seq<string>): (fields: seq<string>)
    requires HasColumns(row, columns)
    ensures |fields| == |columns|
    ensures forall i :: 0 <= i < |columns| ==> fields[i] == row[columns[i]]
  {
    seq(|columns|, i requires 0 <= i < |columns| => assert columns[i] in columns; row[columns[i]])
  }

  /** One output line, without its line feed. */
  function Line(row: Row, columns: seq<string>): string
    requires HasColumns(row, columns)
  {
    Join("\t", Fields(row, columns))
  }

  /** What a row becomes when only `columns` are written. */
  function Project(row: Row, columns: seq<string>): Row
    requires HasColumns(row, columns)
  {
    map c | c in columns :: row[c]
  }

  lemma LineIsWhole(row: Row, columns: seq<string>)
    requires HasColumns(row, columns) && FieldRow(row)
    ensures NoBreak(Line(row, columns))
  {
    forall c | c in Line(row, columns) ensures c != '\n' && c != '\r' {
      JoinChars("\t", Fields(row, columns), c);
      if c != '\t' {
        var p :| p in Fields(row, columns) && c in p;
        assert Field(p);
      }
    }
  }

  /** A written row is read back with the same fields, trailing empty ones included. */
  lemma ReadBack(row: Row, columns: seq<string>)
    requires columns != [] && Distinct(columns)
    requires HasColumns(row, columns) && FieldRow(row)
    ensures ParseRow(columns, Line(row, columns)) == Project(row, columns)
  {
    var fields := Fields(row, columns);
    forall p | p in fields ensures '\t' !in p {
      assert Field(p);
    }
    SplitJoin(fields, '\t');
    assert Pad(fields, |columns|) == fields;
    ZipFields(row, columns);
  }

  lemma ZipFields(row: Row, columns: seq<string>)
    requires Distinct(columns) && HasColumns(row, columns)
    ensures Zip(columns, Fields(row, columns)) == Project(row, columns)
  {
    var fields := Fields(row, columns);
    forall c | c in columns ensures Zip(columns, fields)[c] == row[c] {
      var i :| 0 <= i < |columns| && columns[i] == c;
      ZipAt(columns, fields, i);
    }
  }

  lemma {:induction false} JoinBlank(sep: string, parts: seq<string>)
    requires Blank(sep)
    ensures Blank(Join(sep, parts)) <==> forall p :: p in parts ==> Blank(p)
  {
    if |parts| == 1 {
    } else if parts != [] {
      JoinBlank(sep, parts[1..]);
      var tail := Join(sep, parts[1..]);
      var whole := parts[0] + (sep + tail);
      assert forall c :: c in whole <==> c in parts[0] || c in sep || c in tail;
      assert Blank(whole) <==> Blank(parts[0]) && Blank(tail);
      assert forall p :: p in parts <==> p == parts[0] || p in parts[1..];
    }
  }

  /** The next stage skips a written row exactly when all its fields are blank. */
  lemma LineBlank(row: Row, columns: seq<string>)
    requires HasColumns(row, columns)
    ensures Blank(Line(row, columns)) <==> forall c :: c in columns ==> Blank(row[c])
  {
    var fields := Fields(row, columns);
    JoinBlank("\t", fields);
    if forall p :: p in fields ==> Blank(p) {
      forall c | c in columns ensures Blank(row[c]) {
        var i :| 0 <= i < |columns| && columns[i] == c;
        assert fields[i] in fields;
      }
    }
  }

  predicate AllBlank(row: Row, columns: seq<string>)
    requires HasColumns(row, columns)
  {
    forall c :: c in columns ==> Blank(row[c])
  }

  /** The first of `columns` that indexing the row with would raise KeyError for. */
  function FirstMissing(row: Row, columns: seq<string>): (c: string)
    requires !HasColumns(row, columns)
    ensures c in columns && c !in row
  {
    if columns[0] in row then FirstMissing(row, columns[1..]) else columns[0]
  }

  /** The first of `columns` that the row lacks is the one that stops it. */
  ghost predicate StopsAt(row: Row, columns: seq<string>, c: string) {
    exists i :: 0 <= i < |columns| && columns[i] == c && c !in row && forall j :: 0 <= j < i ==> columns[j] in row
  }

  lemma {:induction false} FirstMissingExact(row: Row, columns: seq<string>, c: string)
    requires !HasColumns(row, columns)
    ensures FirstMissing(row, columns) == c <==> StopsAt(row, columns, c)
  {
    var rest := columns[1..];
    assert columns == [columns[0]] + rest;
    if columns[0] in row {
      FirstMissingExact(row, rest, c);
      if i :| 0 <= i < |rest| && rest[i] == c && c !in row && forall j :: 0 <= j < i ==> rest[j] in row {
        forall j | 0 <= j < i + 1 ensures columns[j] in row {
          assert j > 0 ==> columns[j] == rest[j - 1];
        }
        assert columns[i + 1] == c;
      }
      if i :| 0 <= i < |columns| && columns[i] == c && c !in row && forall j :: 0 <= j < i ==> columns[j] in row {
        forall j | 0 <= j < i - 1 ensures rest[j] in row {
          assert rest[j] == columns[j + 1];
        }
        assert rest[i - 1] == c;
      }
    } else {
      assert columns[0] == FirstMissing(row, columns);
    }
  }

  /** The lines a writer gets out, and the KeyError that stops it, if any. */
  function WrittenLines(rows: seq<Row>, columns: seq<string>): (seq<string>, Option<Error>) {
    if rows == [] then ([], None)
    else if !HasColumns(rows[0], columns) then ([], Some(MissingColumn(FirstMissing(rows[0], columns))))
    else
      var (lines, error) := WrittenLines(rows[1..], columns);
      ([Line(rows[0], columns)] + lines, error)
  }

  /** A header line, then the rows. */
  function TableText(columns: seq<string>, lines: seq<string>): string {
    Unlines([Join("\t", columns)] + lines)
  }

  method WriteRows(columns: seq<string>, rows: seq<Row>) returns (text: string, error: Option<Error>)
    ensures text == TableText(columns, WrittenLines(rows, columns).0)
    ensures error == WrittenLines(rows, columns).1
  {
    var lines := [];
    text := Join("\t", columns) + "\n";
    UnlinesSnoc([], Join("\t", columns));
    assert [Join("\t", columns)] + lines == [] + [Join("\t", columns)];
    ghost var all := WrittenLines(rows, columns);
    for i := 0 to |rows|
      invariant text == TableText(columns, lines)
      invariant lines + WrittenLines(rows[i..], columns).0 == all.0
      invariant WrittenLines(rows[i..], columns).1 == all.1
    {
      assert rows[i..][0] == rows[i] && rows[i..][1..] == rows[i + 1..];
      if !HasColumns(rows[i], columns) {
        assert lines == all.0;
        return text, Some(MissingColumn(FirstMissing(rows[i], columns)));
      }
      text := text + (Line(rows[i], columns) + "\n");
      UnlinesSnoc([Join("\t", columns)] + lines, Line(rows[i], columns));
      assert [Join("\t", columns)] + lines + [Line(rows[i], columns)]
          == [Join("\t", columns)] + (lines + [Line(rows[i], columns)]);
      lines := lines + [Line(rows[i], columns)];
    }
    assert rows[|rows|..] == [] && lines + [] == lines;
    return text, None;
  }

  ghost predicate Writable(rows: seq<Row>, columns: seq<string>) {
    forall row :: row in rows ==> HasColumns(row, columns) && FieldRow(row)
  }

  /** The rows that survive the trip through a file: all but those whose written fields are all blank. */
  ghost function Survivors(rows: seq<Row>, columns: seq<string>): (kept: seq<Row>)
    requires Writable(rows, columns)
  {
    if rows == [] then []
    else if AllBlank(rows[0], columns) then Survivors(rows[1..], columns)
    else [Project(rows[0], columns)] + Survivors(rows[1..], columns)
  }

  lemma {:induction false} LinesSurvive(rows: seq<Row>, columns: seq<string>)
    requires columns != [] && Distinct(columns) && Writable(rows, columns)
    ensures var lines := WrittenLines(rows, columns).0;
      && WrittenLines(rows, columns).1 == None
      && (forall l :: l in lines ==> NoBreak(l))
      && ParseRows(columns, Filter(lines, HasText)) == Survivors(rows, columns)
  {
    if rows != [] {
      assert rows[0] in rows;
      LinesSurvive(rows[1..], columns);
      LineIsWhole(rows[0], columns);
      LineBlank(rows[0], columns);
      var line := Line(rows[0], columns);
      var tail := WrittenLines(rows[1..], columns).0;
      assert ([line] + tail)[1..] == tail;
      if !AllBlank(rows[0], columns) {
        ReadBack(rows[0], columns);
        assert ([line] + Filter(tail, HasText))[1..] == Filter(tail, HasText);
      }
    }
  }

  /** A stage reads exactly what the stage before it wrote, in order, except for wholly blank rows. */
  lemma StageRoundTrip(columns: seq<string>, rows: seq<Row>)
    requires columns != [] && Distinct(columns) && Writable(rows, columns)
    requires forall c :: c in columns ==> Field(c)
    requires !Blank(columns[0])
    ensures ReadTable(TableText(columns, WrittenLines(rows, columns).0)) == Table(columns, Survivors(rows, columns))
  {
    var lines := WrittenLines(rows, columns).0;
    LinesSurvive(rows, columns);
    var header := Join("\t", columns);
    forall c | c in header ensures c != '\n' && c != '\r' {
      JoinChars("\t", columns, c);
    }
    JoinBlank("\t", columns);
    assert columns[0] in columns;
    SplitJoin(columns, '\t');
    var all := [header] + lines;
    FileLinesOfUnlines(all);
    assert all[1..] == lines;
    assert Filter(all, HasText) == [header] + Filter(lines, HasText);
    assert ([header] + Filter(lines, HasText))[1..] == Filter(lines, HasText);
  }
}
