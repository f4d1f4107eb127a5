/** tools/sab_audit/emit_registry_zig.py: the registry becomes a Zig table with a first-match lookup. */
module EmitRegistry {
  import opened Strings
  import opened Tsv
  import opened BuildRegistry

  const ENTRY_COLUMNS: seq<string> := ["symbol", "class", "text", "sab", "signature"]
  const ENTRIES_OPEN := "pub const entries: []const Entry = &.{"

  // ----- string literals -----

  /** `zig_str` without its quotes: backslashes first, then quotes. */
  function Escaped(s: string): string {
    Replace(Replace(s, "\\", "\\\\"), "\"", "\\\"")
  }

  function ZigStr(s: string): string {
    "\"" + (Escaped(s) + "\"")
  }

  // ----- reading the registry -----

  predicate IsData(line: string) {
    !StartsWith(line, "#") && !Blank(line)
  }

  function DataLines(text: string): seq<string> {
    Filter(FileLines(text), IsData)
  }

  function AfterColon(line: string): string {
    var k := Find(line, ':');
    if k < |line| then line[k + 1..] else ""
  }

  /** The stamp of the last line that carries it. */
  function Stamp(lines: seq<string>, prefix: string): Option<string> {
    if lines == [] then None
    else
      var last := lines[|lines| - 1];
      if StartsWith(last, prefix) then Some(Strip(AfterColon(last))) else Stamp(lines[..|lines| - 1], prefix)
  }

  function OrUnknown(stamp: Option<string>): string {
    match stamp case Some(s) => s case None => "?"
  }

  // ----- printing the table -----

  // Lines whose characters are reasoned about one by one are written in short pieces.
  const GENERATED_BY := "//! sab_audit_registry.zig — " + "GENERATED by tools/sab_audit/" + "emit_registry_zig.py"
  const GENERATED_FROM := "//! from tools/sab_audit/" + "registry.tsv (probe-matrix " + "output)."
  const NO_EDIT := "//! Do not edit by hand: " + "regenerate with " + "tools/sab_audit/regen.sh."

  function StampComment(plugin: string, stdHead: string): string {
    "//! Registry stamps: " + ("plugin_head=" + (plugin + (" sa_std_head=" + stdHead)))
  }

  function Comments(plugin: string, stdHead: string): seq<string> {
    [GENERATED_BY, GENERATED_FROM, NO_EDIT, StampComment(plugin, stdHead)]
  }

  const IMPORTS: seq<string> :=
    ["", "const std = @import(\"std\");", "", "pub const Status = enum { " + "ok, fail, checkfail, decl };", ""]

  const ENTRY_TYPE: seq<string> :=
    ["pub const Entry = struct {", "    symbol: []const u8,", "    class: []const u8,", "    text: Status,",
     "    sab: Status,", "    signature: []const u8,", "};", ""]

  function Preamble(plugin: string, stdHead: string): seq<string> {
    Comments(plugin, stdHead) + IMPORTS + ENTRY_TYPE
  }

  const POSTAMBLE: seq<string> :=
    ["};", "", "pub fn lookup(symbol: []const u8) ?Entry {", "    for (entries) |entry| {",
     "        if (std.mem.eql(u8, " + "entry.symbol, symbol)) " + "return entry;", "    }", "    return null;", "}", ""]

  /** The part of an entry line from the statuses on. */
  function TailText(text: string, sab: string, signature: string): string {
    ", .text = ." + (text + (", .sab = ." + (sab + (", .signature = " + (ZigStr(signature) + " },")))))
  }

  function EntryLine(row: Row): string
    requires HasColumns(row, ENTRY_COLUMNS)
  {
    assert forall c :: c in ["symbol", "class", "text", "sab", "signature"] ==> c in row;
    assert "symbol" in ENTRY_COLUMNS && "class" in ENTRY_COLUMNS && "text" in ENTRY_COLUMNS && "sab" in ENTRY_COLUMNS
        && "signature" in ENTRY_COLUMNS;
    "    .{ .symbol = " + (ZigStr(row["symbol"]) + (", .class = " + (ZigStr(row["class"])
    + TailText(row["text"], row["sab"], row["signature"]))))
  }

  function EntryLines(rows: seq<Row>): (lines: Result<seq<string>>)
    ensures lines.Success? <==> forall row :: row in rows ==> HasColumns(row, ENTRY_COLUMNS)
  {
    if rows == [] then Success([])
    else if !HasColumns(rows[0], ENTRY_COLUMNS) then
      assert rows[0] in rows;
      Failure(MissingColumn(FirstMissing(rows[0], ENTRY_COLUMNS)))
    else
      assert forall row :: row in rows <==> row == rows[0] || row in rows[1..];
      var tail :- EntryLines(rows[1..]);
      Success([EntryLine(rows[0])] + tail)
  }

  function Emitted(registryText: string): Result<string> {
    var lines := FileLines(registryText);
    var entryLines :- EntryLines(TableOf(Filter(lines, IsData)).rows);
    Success(Join("\n", Preamble(OrUnknown(Stamp(lines, PLUGIN_STAMP)), OrUnknown(Stamp(lines, STD_STAMP)))
                       + [ENTRIES_OPEN] + entryLines + POSTAMBLE))
  }

  method ReadStamps(lines: seq<string>) returns (plugin: Option<string>, stdHead: Option<string>)
    ensures plugin == Stamp(lines, PLUGIN_STAMP) && stdHead == Stamp(lines, STD_STAMP)
  {
    plugin, stdHead := None, None;
    for i := 0 to |lines|
      invariant plugin == Stamp(lines[..i], PLUGIN_STAMP) && stdHead == Stamp(lines[..i], STD_STAMP)
    {
      assert lines[..i + 1][..i] == lines[..i];
      assert !(PLUGIN_STAMP <= lines[i] && STD_STAMP <= lines[i]) by {
        assert PLUGIN_STAMP[2] != STD_STAMP[2];
      }
      if StartsWith(lines[i], PLUGIN_STAMP) {
        plugin := Some(Strip(AfterColon(lines[i])));
      } else if StartsWith(lines[i], STD_STAMP) {
        stdHead := Some(Strip(AfterColon(lines[i])));
      }
    }
    assert lines[..|lines|] == lines;
  }

  lemma KeepLine(lines: seq<string>, i: nat)
    requires i < |lines|
    ensures Filter(lines[..i + 1], IsData) == Filter(lines[..i], IsData) + if IsData(lines[i]) then [lines[i]] else []
  {
    assert lines[..i + 1] == lines[..i] + [lines[i]];
    FilterAppend(lines[..i], [lines[i]], IsData);
    assert [lines[i]][1..] == [];
  }

  lemma MoreData(data: seq<string>, line: string)
    requires data != []
    ensures TableOf(data + [line]).rows == TableOf(data).rows + [ParseRow(Split(data[0], '\t'), line)]
  {
    var header := Split(data[0], '\t');
    assert (data + [line])[1..] == data[1..] + [line] && (data + [line])[0] == data[0];
    ParseRowsAppend(header, data[1..], [line]);
    assert ParseRows(header, [line]) == [ParseRow(header, line)];
  }

  method ReadRegistry(lines: seq<string>) returns (rows: seq<Row>)
    ensures rows == TableOf(Filter(lines, IsData)).rows
  {
    rows := [];
    var header: Option<seq<string>> := None;
    ghost var data: seq<string> := [];
    for i := 0 to |lines|
      invariant data == Filter(lines[..i], IsData)
      invariant header == if data == [] then None else Some(Split(data[0], '\t'))
      invariant rows == TableOf(data).rows
    {
      KeepLine(lines, i);
      if StartsWith(lines[i], "#") || Blank(lines[i]) {
        continue;
      }
      var parts := Split(lines[i], '\t');
      if header == None {
        header := Some(parts);
        data := [lines[i]];
        continue;
      }
      MoreData(data, lines[i]);
      parts := Pad(parts, |header.value|);
      rows := rows + [Zip(header.value, parts)];
      data := data + [lines[i]];
    }
    assert lines[..|lines|] == lines;
  }

  method PrintEntries(rows: seq<Row>) returns (out: seq<string>, error: Option<Error>)
    ensures error.None? ==> EntryLines(rows) == Success(out)
    ensures error.Some? ==> EntryLines(rows) == Failure(error.value)
  {
    out := [];
    assert rows[0..] == rows;
    assert EntryLines(rows).Success? ==> [] + EntryLines(rows).value == EntryLines(rows).value;
    for i := 0 to |rows|
      invariant EntryLines(rows[i..]).Success? ==> EntryLines(rows) == Success(out + EntryLines(rows[i..]).value)
      invariant EntryLines(rows[i..]).Failure? ==> EntryLines(rows) == EntryLines(rows[i..])
    {
      assert rows[i..][0] == rows[i] && rows[i..][1..] == rows[i + 1..];
      if !HasColumns(rows[i], ENTRY_COLUMNS) {
        return out, Some(MissingColumn(FirstMissing(rows[i], ENTRY_COLUMNS)));
      }
      var line := EntryLine(rows[i]);
      if EntryLines(rows[i + 1..]).Success? {
        assert out + ([line] + EntryLines(rows[i + 1..]).value) == out + [line] + EntryLines(rows[i + 1..]).value;
      }
      out := out + [line];
    }
    assert rows[|rows|..] == [] && out + [] == out;
    error := None;
  }

  /** `main` */
  method Emit(registryText: string) returns (zig: Result<string>)
    ensures zig == Emitted(registryText)
  {
    var lines := FileLines(registryText);
    var plugin, stdHead := ReadStamps(lines);
    var rows := ReadRegistry(lines);
    var out := Preamble(OrUnknown(plugin), OrUnknown(stdHead)) + [ENTRIES_OPEN];
    var entryLines, error := PrintEntries(rows);
    if error.Some? {
      return Failure(error.value);
    }
    out := out + entryLines + POSTAMBLE;
    zig := Success(Join("\n", out));
  }
}
