/** From the rows of a registry to the lookup that is emitted for it. */
module Pipeline {
  import opened Strings
  import opened Ordering
  import opened Tsv
  import opened GenProbes
  import opened BuildRegistry
  import opened RegistryFacts
  import opened EmitRegistry
  import opened ZigTable
  import opened EntryText
  import opened HeadLines
  import opened EmittedTable
  import opened RegistryFile

  // ----- rows and their lines -----

  /** A row with the columns of the registry, none of which breaks its line. */
  ghost predicate Shaped(row: Row) {
    && row.Keys == (set c | c in REGISTRY_COLUMNS)
    && HasColumns(row, REGISTRY_COLUMNS)
    && "symbol" in row
    && FieldRow(row)
  }

  /** A shaped row with statuses of the enum. */
  ghost predicate Sound(row: Row) {
    Shaped(row) && KnownStatuses(row)
  }

  ghost function Symbol(row: Row): string {
    if "symbol" in row then row["symbol"] else ""
  }

  /** The body line of a row. */
  ghost function Text(row: Row): string {
    if HasColumns(row, REGISTRY_COLUMNS) then Line(row, REGISTRY_COLUMNS) else ""
  }

  /** A row whose line the emitter does not skip. */
  ghost predicate Visible(row: Row) {
    IsData(Text(row))
  }

  /** Through a file and back, for any columns. */
  lemma RowThroughFile(row: Row, columns: seq<string>)
    requires |columns| > 1 && Distinct(columns) && HasColumns(row, columns) && FieldRow(row)
    requires row.Keys == (set c | c in columns)
    ensures NoBreak(Line(row, columns))
    ensures ParseRow(columns, Line(row, columns)) == row
    ensures IsData(Line(row, columns)) <==> !StartsWith(row[columns[0]], "#") && !AllBlank(row, columns)
  {
    LineIsWhole(row, columns);
    ReadBack(row, columns);
    assert Project(row, columns) == row;
    LineBlank(row, columns);
    FirstFieldOpens(Fields(row, columns));
  }

  /** The emitter reads a body line back as its row, unless it skips it: exactly when the symbol looks like a comment or
      all columns are blank. */
  lemma ShapedLine(row: Row)
    requires Shaped(row)
    ensures NoBreak(Text(row))
    ensures ParseRow(REGISTRY_COLUMNS, Text(row)) == row
    ensures Visible(row) <==> !StartsWith(row["symbol"], "#") && !AllBlank(row, REGISTRY_COLUMNS)
  {
    RegistryColumns();
    RowThroughFile(row, REGISTRY_COLUMNS);
  }

  lemma KnownStatusHasText(name: string)
    requires StatusOf(name).Some?
    ensures !Blank(name)
  {
    NotBlank(name);
  }

  lemma SoundVisible(row: Row)
    requires Sound(row)
    ensures Visible(row) <==> !StartsWith(row["symbol"], "#")
  {
    ShapedLine(row);
    RegistryColumns();
    KnownStatusHasText(row["text"]);
    assert REGISTRY_COLUMNS[2] in REGISTRY_COLUMNS;
  }

  // ----- a head that lets a line in -----

  lemma ColumnIsNoStatus(name: string)
    requires name in REGISTRY_COLUMNS || name == ""
    ensures StatusOf(name) == None
  {
    assert name == "signature" ==> name[0] == 's';
    assert name == "text" || name == "note" ==> name[3] == 't' || name[3] == 'e';
  }

  lemma HeaderValue(header: seq<string>, c: string)
    requires c in ParseRow(header, Join("\t", REGISTRY_COLUMNS))
    ensures var value := ParseRow(header, Join("\t", REGISTRY_COLUMNS))[c]; value in REGISTRY_COLUMNS || value == ""
  {
    RegistryHeader();
    var padded := Pad(REGISTRY_COLUMNS, |header|);
    ZipValues(header, padded);
    assert Zip(header, padded)[c] in padded;
  }

  /** The header line, taken for a row, cannot be printed whatever the columns are. */
  lemma HeaderIsNoEntry(header: seq<string>)
    ensures !Printed(ParseRow(header, Join("\t", REGISTRY_COLUMNS)))
  {
    var row := ParseRow(header, Join("\t", REGISTRY_COLUMNS));
    assert "text" in ENTRY_COLUMNS;
    if "text" in row {
      HeaderValue(header, "text");
      ColumnIsNoStatus(row["text"]);
    }
  }

  /** Once any line stands before the header, the emitter fails or emits a table that is rejected. */
  lemma HarmfulHead(registryText: string, front: seq<string>, vis: seq<string>)
    requires front != [] && DataLines(registryText) == front + ([Join("\t", REGISTRY_COLUMNS)] + vis)
    ensures Emitted(registryText).Success? ==> Decode(Emitted(registryText).value) == None
  {
    var data := DataLines(registryText);
    var rows, i := TableOf(data).rows, |front| - 1;
    assert data[1..][i] == Join("\t", REGISTRY_COLUMNS);
    HeaderIsNoEntry(Split(data[0], '\t'));
    assert rows[i] in rows;
    TableRoundTrip(registryText);
  }

  lemma {:induction false} FilterSorted(xs: seq<string>, keep: string -> bool)
    requires SortedBy(xs, Below)
    ensures SortedBy(Filter(xs, keep), Below)
  {
    if xs != [] {
      FilterSorted(xs[1..], keep);
      var tail := Filter(xs[1..], keep);
      forall y | y in tail ensures Below(xs[0], y) {
        assert y in xs[1..];
      }
    }
  }

  // ----- lookup -----

  /** The row has the alphabetically first body line among the visible rows of its symbol. */
  ghost predicate IsLeast(rows: seq<Row>, row: Row) {
    && row in rows && Visible(row)
    && forall other :: other in rows && Visible(other) && Symbol(other) == Symbol(row) ==> Precedes(Text(row), Text(other))
  }

  /** There is only one such row: two lines that compare equal are the line of one row. */
  lemma LeastIsUnique(rows: seq<Row>, a: Row, b: Row)
    requires IsLeast(rows, a) && IsLeast(rows, b) && Symbol(a) == Symbol(b) && Shaped(a) && Shaped(b)
    ensures a == b
  {
    BelowMeaning(Text(a), Text(b));
    BelowMeaning(Text(b), Text(a));
    BelowAntisymmetric(Text(a), Text(b));
    ShapedLine(a);
    ShapedLine(b);
  }

  /** The entry carries the row's class, statuses and signature. */
  ghost predicate Renders(e: Entry, row: Row) {
    KnownStatuses(row) && e == EntryOf(row)
  }

  ghost predicate AnswersFor(found: Option<Entry>, symbol: string, rows: seq<Row>) {
    match found
    case None => forall row :: row in rows && Visible(row) ==> Symbol(row) != symbol
    case Some(e) => exists row :: IsLeast(rows, row) && Symbol(row) == symbol && Renders(e, row)
  }

  /** A symbol is found exactly when it has a visible row, and then with the class, statuses and signature of its least
      row. */
  ghost predicate Answers(zig: ZigModule, rows: seq<Row>) {
    forall symbol :: AnswersFor(Ask(zig, symbol), symbol, rows)
  }

  /** The entries of one symbol stand together. */
  ghost predicate Contiguous(entries: seq<Entry>) {
    forall i, j, k :: 0 <= i <= j <= k < |entries| && entries[i].symbol == entries[k].symbol ==>
      entries[j].symbol == entries[i].symbol
  }

  lemma TextOpens(row: Row, symbol: string)
    requires Shaped(row) && Field(symbol)
    ensures symbol + "\t" <= Text(row) <==> Symbol(row) == symbol
  {
    RegistryColumns();
    var fields := Fields(row, REGISTRY_COLUMNS);
    FirstFieldThenTab(fields);
    assert Field(row["symbol"]);
    if symbol + "\t" <= Text(row) {
      FirstTab(symbol, Text(row));
      FirstTab(fields[0], Text(row));
    }
  }

  lemma FirstTab(field: string, line: string)
    requires Field(field) && field + "\t" <= line
    ensures field == line[..Strings.Find(line, '\t')]
  {
    assert line[|field|] == '\t';
    forall i | 0 <= i < |field| ensures line[i] != '\t' {
      assert line[i] == field[i] && field[i] in field;
    }
    assert Strings.Find(line, '\t') == |field|;
  }

  lemma FirstFieldThenTab(fields: seq<string>)
    requires |fields| > 1
    ensures fields[0] + "\t" <= Join("\t", fields)
  {
    var tail := Join("\t", fields[1..]);
    assert Join("\t", fields) == fields[0] + ("\t" + tail);
    Assoc(fields[0], "\t", tail);
  }

  /** Between two rows of a symbol, in line order, there are only rows of that symbol. */
  lemma SymbolInterval(a: Row, b: Row, c: Row)
    requires Shaped(a) && Shaped(b) && Shaped(c)
    requires Below(Text(a), Text(b)) && Below(Text(b), Text(c)) && Symbol(a) == Symbol(c)
    ensures Symbol(b) == Symbol(a)
  {
    assert Field(a["symbol"]);
    TextOpens(a, Symbol(a));
    TextOpens(c, Symbol(a));
    PrefixInterval(Symbol(a) + "\t", Text(a), Text(b), Text(c));
    TextOpens(b, Symbol(a));
  }

  lemma SortedContiguous(entries: seq<Entry>, parsed: seq<Row>)
    requires RenderAll(entries, parsed) && forall row :: row in parsed ==> Shaped(row)
    requires forall a, b :: 0 <= a < b < |parsed| ==> Below(Text(parsed[a]), Text(parsed[b]))
    ensures Contiguous(entries)
  {
    forall i, j, k | 0 <= i <= j <= k < |entries| && entries[i].symbol == entries[k].symbol
      ensures entries[j].symbol == entries[i].symbol
    {
      SymbolBetween(parsed, i, j, k);
    }
  }

  lemma SymbolBetween(parsed: seq<Row>, i: nat, j: nat, k: nat)
    requires i <= j <= k < |parsed|
    requires forall row :: row in parsed ==> Shaped(row)
    requires forall a, b :: 0 <= a < b < |parsed| ==> Below(Text(parsed[a]), Text(parsed[b]))
    ensures Symbol(parsed[i]) == Symbol(parsed[k]) ==> Symbol(parsed[j]) == Symbol(parsed[i])
  {
    if i < j < k && Symbol(parsed[i]) == Symbol(parsed[k]) {
      ShapedAt(parsed, i);
      ShapedAt(parsed, j);
      ShapedAt(parsed, k);
      SymbolInterval(parsed[i], parsed[j], parsed[k]);
    }
  }

  lemma ShapedAt(parsed: seq<Row>, i: nat)
    requires i < |parsed| && forall row :: row in parsed ==> Shaped(row)
    ensures Shaped(parsed[i])
  {
    assert parsed[i] in parsed;
  }

  lemma {:induction false} VisibleLines(body: seq<string>, rows: seq<Row>)
    requires IsBody(body, rows)
    ensures |Filter(body, IsData)| == |Filter(rows, Visible)|
  {
    if rows != [] {
      VisibleLines(body[1..], rows[1..]);
    }
  }

  lemma FirstSymbolIsLeast(parsed: seq<Row>, rows: seq<Row>, i: nat)
    requires i < |parsed|
    requires forall row :: row in parsed <==> row in rows && Visible(row)
    requires forall a, b :: 0 <= a < b < |parsed| ==> Below(Text(parsed[a]), Text(parsed[b]))
    requires forall j :: 0 <= j < i ==> Symbol(parsed[j]) != Symbol(parsed[i])
    ensures IsLeast(rows, parsed[i])
  {
    assert parsed[i] in parsed;
    forall other | other in rows && Visible(other) && Symbol(other) == Symbol(parsed[i])
      ensures Precedes(Text(parsed[i]), Text(other))
    {
      var k :| 0 <= k < |parsed| && parsed[k] == other;
      BelowReflexive(Text(other));
      BelowMeaning(Text(parsed[i]), Text(other));
    }
  }

  lemma RendersSymbol(e: Entry, row: Row)
    requires Renders(e, row)
    ensures e.symbol == Symbol(row)
  {
    assert "symbol" in ENTRY_COLUMNS;
  }

  ghost predicate RenderAll(entries: seq<Entry>, parsed: seq<Row>) {
    |entries| == |parsed| && forall i :: 0 <= i < |parsed| ==> Renders(entries[i], parsed[i]) && entries[i].symbol == Symbol(parsed[i])
  }

  /** The answer for a symbol that is found: its first entry. */
  lemma FirstEntry(entries: seq<Entry>, parsed: seq<Row>, rows: seq<Row>, i: nat)
    requires RenderAll(entries, parsed) && i < |entries|
    requires forall row :: row in parsed <==> row in rows && Visible(row)
    requires forall a, b :: 0 <= a < b < |parsed| ==> Below(Text(parsed[a]), Text(parsed[b]))
    requires forall j :: 0 <= j < i ==> entries[j].symbol != entries[i].symbol
    ensures AnswersFor(Some(entries[i]), entries[i].symbol, rows)
  {
    forall j | 0 <= j < i ensures Symbol(parsed[j]) != Symbol(parsed[i]) {
      assert entries[j].symbol != entries[i].symbol;
    }
    FirstSymbolIsLeast(parsed, rows, i);
    assert Renders(entries[i], parsed[i]);
  }

  lemma NoEntry(entries: seq<Entry>, parsed: seq<Row>, rows: seq<Row>, symbol: string)
    requires RenderAll(entries, parsed)
    requires forall row :: row in parsed <==> row in rows && Visible(row)
    requires forall e :: e in entries ==> e.symbol != symbol
    ensures AnswersFor(None, symbol, rows)
  {
    forall row | row in rows && Visible(row) ensures Symbol(row) != symbol {
      var k :| 0 <= k < |parsed| && parsed[k] == row;
      assert entries[k] in entries;
    }
  }

  lemma SortedLookup(entries: seq<Entry>, parsed: seq<Row>, rows: seq<Row>)
    requires RenderAll(entries, parsed)
    requires forall row :: row in parsed <==> row in rows && Visible(row)
    requires forall a, b :: 0 <= a < b < |parsed| ==> Below(Text(parsed[a]), Text(parsed[b]))
    ensures Answers(ZigModule(entries, "symbol"), rows)
  {
    var zig := ZigModule(entries, "symbol");
    forall symbol ensures AnswersFor(Ask(zig, symbol), symbol, rows) {
      FirstBySymbol(entries, symbol);
      if Ask(zig, symbol).Some? {
        var i :| 0 <= i < |entries| && entries[i] == Ask(zig, symbol).value && FirstAt(entries, symbol, i);
        FirstEntry(entries, parsed, rows, i);
      } else {
        NoEntry(entries, parsed, rows, symbol);
      }
    }
  }

  ghost predicate IsBody(body: seq<string>, rows: seq<Row>) {
    |body| == |rows| && forall i :: 0 <= i < |rows| ==> body[i] == Text(rows[i])
  }

  /** What the emitter parses out of the registry: the visible rows, sorted by line. */
  lemma ParsedRegistry(body: seq<string>, rows: seq<Row>, vis: seq<string>, parsed: seq<Row>)
    requires IsBody(body, rows) && forall row :: row in rows ==> Shaped(row)
    requires vis == Filter(Sort(body, Below), IsData) && parsed == ParseRows(REGISTRY_COLUMNS, vis)
    ensures forall row :: row in parsed <==> row in rows && Visible(row)
    ensures forall a, b :: 0 <= a < b < |parsed| ==> Below(Text(parsed[a]), Text(parsed[b]))
  {
    BelowPreorder(body);
    SortMembers(body, Below);
    SortCorrect(body, Below);
    FilterSorted(Sort(body, Below), IsData);
    forall i | 0 <= i < |parsed| ensures parsed[i] in rows && Text(parsed[i]) == vis[i] && Visible(parsed[i]) {
      assert vis[i] in vis;
      var k :| 0 <= k < |body| && body[k] == vis[i];
      assert rows[k] in rows;
      ShapedLine(rows[k]);
    }
    forall row | row in rows && Visible(row) ensures row in parsed {
      ShapedLine(row);
      var k :| 0 <= k < |rows| && rows[k] == row;
      assert body[k] in vis;
      var j :| 0 <= j < |vis| && vis[j] == body[k];
      assert parsed[j] == row;
    }
  }

  ghost predicate AllPrintable(rows: seq<Row>) {
    forall row :: row in rows && Visible(row) ==> Printed(row)
  }

  /** The emitted table is accepted. */
  ghost predicate Accepted(zig: Result<string>) {
    zig.Success? && Decode(zig.value).Some?
  }

  lemma HarmlessReadBack(body: seq<string>, pluginHead: string, stdHead: string)
    requires forall l :: l in body ==> NoBreak(l)
    requires Harmless(pluginHead) && Harmless(stdHead)
    ensures TableOf(DataLines(RegistryText(body, pluginHead, stdHead))).rows
         == ParseRows(REGISTRY_COLUMNS, Filter(Sort(body, Below), IsData))
  {
    RegistryReadBack(body, pluginHead, stdHead);
    RegistryHeader();
    NoneKept(Further(pluginHead));
    NoneKept(Further(stdHead));
    var header, vis := Join("\t", REGISTRY_COLUMNS), Filter(Sort(body, Below), IsData);
    assert [] + ([] + ([header] + vis)) == [header] + vis;
    assert ([header] + vis)[1..] == vis;
  }

  lemma {:induction false} NoneKept(lines: seq<string>)
    requires forall l :: l in lines ==> !IsData(l)
    ensures Filter(lines, IsData) == []
  {
    if lines != [] {
      NoneKept(lines[1..]);
    }
  }

  lemma EntriesRender(parsed: seq<Row>)
    requires forall row :: row in parsed ==> KnownStatuses(row)
    ensures RenderAll(EntriesOf(parsed), parsed)
  {
    forall i | 0 <= i < |parsed| ensures Renders(EntriesOf(parsed)[i], parsed[i]) && EntriesOf(parsed)[i].symbol == Symbol(parsed[i]) {
      assert parsed[i] in parsed;
      RendersSymbol(EntriesOf(parsed)[i], parsed[i]);
    }
  }

  lemma VisibleCount(body: seq<string>, rows: seq<Row>)
    requires IsBody(body, rows)
    ensures |Filter(Sort(body, Below), IsData)| == |Filter(rows, Visible)|
  {
    VisibleLines(body, rows);
    BelowPreorder(body);
    SortCorrect(body, Below);
    FilterPermutation(Sort(body, Below), body, IsData);
  }

  /** From the visible rows, in line order, to what their entries answer. */
  lemma EntriesAnswer(rows: seq<Row>, parsed: seq<Row>)
    requires forall row :: row in rows ==> Shaped(row)
    requires forall row :: row in parsed <==> row in rows && Visible(row)
    requires forall a, b :: 0 <= a < b < |parsed| ==> Below(Text(parsed[a]), Text(parsed[b]))
    requires forall row :: row in parsed ==> KnownStatuses(row)
    ensures Answers(ZigModule(EntriesOf(parsed), "symbol"), rows) && Contiguous(EntriesOf(parsed))
  {
    EntriesRender(parsed);
    SortedLookup(EntriesOf(parsed), parsed, rows);
    SortedContiguous(EntriesOf(parsed), parsed);
  }

  lemma EveryParsedRow(lines: seq<string>)
    ensures forall row :: row in ParseRows(REGISTRY_COLUMNS, lines) ==> HasColumns(row, ENTRY_COLUMNS)
  {
    assert forall c :: c in ENTRY_COLUMNS ==> c in REGISTRY_COLUMNS;
  }

  /** What an accepted table of these rows says: every symbol answered from its least row, the entries of a symbol
      together, and one entry for each visible row. */
  ghost predicate Says(zig: ZigModule, rows: seq<Row>) {
    Answers(zig, rows) && Contiguous(zig.entries) && |zig.entries| == |Filter(rows, Visible)|
  }

  lemma HarmlessAnswers(rows: seq<Row>, body: seq<string>, pluginHead: string, stdHead: string)
    requires IsBody(body, rows) && forall row :: row in rows ==> Shaped(row)
    requires Harmless(pluginHead) && Harmless(stdHead)
    ensures var text := RegistryText(body, pluginHead, stdHead);
      var zig := Emitted(text);
      && zig.Success?
      && (Decode(zig.value).Some? <==> AllPrintable(rows) && Showable(text))
      && (Decode(zig.value).Some? ==> Says(Decode(zig.value).value, rows))
  {
    var text := RegistryText(body, pluginHead, stdHead);
    var vis := Filter(Sort(body, Below), IsData);
    var parsed := ParseRows(REGISTRY_COLUMNS, vis);
    BodyNoBreak(body, rows);
    HarmlessReadBack(body, pluginHead, stdHead);
    ParsedRegistry(body, rows, vis, parsed);
    EveryParsedRow(vis);
    TableRoundTrip(text);
    assert AllPrintable(rows) <==> forall row :: row in parsed ==> Printed(row);
    if AllPrintable(rows) {
      EntriesAnswer(rows, parsed);
      VisibleCount(body, rows);
    }
  }

  lemma BodyNoBreak(body: seq<string>, rows: seq<Row>)
    requires IsBody(body, rows) && forall row :: row in rows ==> Shaped(row)
    ensures forall l :: l in body ==> NoBreak(l)
  {
    forall l | l in body ensures NoBreak(l) {
      var k :| 0 <= k < |body| && body[k] == l;
      ShapedLine(rows[k]);
    }
  }

  /** A head with a data line in it spoils the table. */
  lemma HarmfulRejected(rows: seq<Row>, body: seq<string>, pluginHead: string, stdHead: string)
    requires IsBody(body, rows) && forall row :: row in rows ==> Shaped(row)
    requires !Harmless(pluginHead) || !Harmless(stdHead)
    ensures !Accepted(Emitted(RegistryText(body, pluginHead, stdHead)))
  {
    BodyNoBreak(body, rows);
    RegistryReadBack(body, pluginHead, stdHead);
    var a, b := Filter(Further(pluginHead), IsData), Filter(Further(stdHead), IsData);
    var vis := Filter(Sort(body, Below), IsData);
    Assoc(a, b, [Join("\t", REGISTRY_COLUMNS)] + vis);
    HarmlessIsNone(pluginHead);
    HarmlessIsNone(stdHead);
    HarmfulHead(RegistryText(body, pluginHead, stdHead), a + b, vis);
  }

  // ----- heads on one line -----

  lemma FirstFieldPrefix(fields: seq<string>, prefix: string)
    requires |fields| > 1 && '\t' !in prefix && prefix <= Join("\t", fields)
    ensures prefix <= fields[0]
  {
    FirstFieldThenTab(fields);
    var line := Join("\t", fields);
    assert line[|fields[0]|] == '\t';
    assert forall i :: 0 <= i < |prefix| ==> line[i] == prefix[i] && prefix[i] in prefix;
    assert prefix == line[..|prefix|] && fields[0] == line[..|fields[0]|];
  }

  /** No row passes for a stamp. */
  ghost predicate NoStamps(rows: seq<Row>) {
    forall row :: row in rows ==> !StartsWith(Symbol(row), PLUGIN_STAMP) && !StartsWith(Symbol(row), STD_STAMP)
  }

  lemma StampRow(row: Row, prefix: string)
    requires Shaped(row) && '\t' !in prefix && StartsWith(Text(row), prefix)
    ensures StartsWith(Symbol(row), prefix)
  {
    RegistryColumns();
    FirstFieldPrefix(Fields(row, REGISTRY_COLUMNS), prefix);
  }

  lemma NoStampLines(body: seq<string>, rows: seq<Row>, prefix: string)
    requires IsBody(body, rows) && forall row :: row in rows ==> Shaped(row)
    requires '\t' !in prefix && forall row :: row in rows ==> !StartsWith(Symbol(row), prefix)
    ensures forall l :: l in body ==> !StartsWith(l, prefix)
  {
    forall l | l in body ensures !StartsWith(l, prefix) {
      var k :| 0 <= k < |body| && body[k] == l;
      assert rows[k] in rows;
      if StartsWith(l, prefix) {
        StampRow(rows[k], prefix);
      }
    }
  }

  /** With heads on one line and no row that passes for a stamp, the heads are harmless, and shown when their stripped
      text can be shown. */
  lemma OneLineHeads(rows: seq<Row>, body: seq<string>, pluginHead: string, stdHead: string)
    requires IsBody(body, rows) && forall row :: row in rows ==> Shaped(row)
    requires NoBreak(pluginHead) && NoBreak(stdHead) && NoStamps(rows)
    ensures Harmless(pluginHead) && Harmless(stdHead)
    ensures Showable(RegistryText(body, pluginHead, stdHead)) <==> Presentable(Strip(pluginHead)) && Presentable(Strip(stdHead))
  {
    OneLineHarmless(pluginHead);
    OneLineHarmless(stdHead);
    BodyNoBreak(body, rows);
    NoStampLines(body, rows, PLUGIN_STAMP);
    NoStampLines(body, rows, STD_STAMP);
    StampsRecovered(body, pluginHead, stdHead);
  }

  /** The emitted table is accepted exactly when the heads are harmless, every visible row can be printed and the
      recovered stamps can be shown; it then says what the rows say. Heads on one line are harmless and, when no row
      passes for a stamp, shown as they are. */
  ghost predicate Faithful(text: string, rows: seq<Row>, pluginHead: string, stdHead: string) {
    var zig := Emitted(text);
    && (Harmless(pluginHead) && Harmless(stdHead) ==> zig.Success?)
    && (Accepted(zig) <==> Harmless(pluginHead) && Harmless(stdHead) && AllPrintable(rows) && Showable(text))
    && (Accepted(zig) ==> Says(Decode(zig.value).value, rows))
    && (NoBreak(pluginHead) && NoBreak(stdHead) && NoStamps(rows) ==>
          && Harmless(pluginHead) && Harmless(stdHead)
          && (Showable(text) <==> Presentable(Strip(pluginHead)) && Presentable(Strip(stdHead))))
  }

  /** For any heads and any rows of the registry's shape. */
  lemma RegistryAnswers(rows: seq<Row>, body: seq<string>, pluginHead: string, stdHead: string)
    requires IsBody(body, rows) && forall row :: row in rows ==> Shaped(row)
    ensures Faithful(RegistryText(body, pluginHead, stdHead), rows, pluginHead, stdHead)
  {
    if NoBreak(pluginHead) && NoBreak(stdHead) && NoStamps(rows) {
      OneLineHeads(rows, body, pluginHead, stdHead);
    }
    if Harmless(pluginHead) && Harmless(stdHead) {
      HarmlessAnswers(rows, body, pluginHead, stdHead);
    } else {
      HarmfulRejected(rows, body, pluginHead, stdHead);
    }
  }

  // ----- the rows of a run are sound -----

  lemma SegmentField(backend: string, cell: Option<Row>)
    requires Field(backend) && (cell.Some? ==> FieldRow(cell.value)) && Judge(backend, cell).Success?
    ensures forall p :: p in Judge(backend, cell).value.signatures ==> Field(p)
  {
    if cell.Some? {
      var r := cell.value;
      if r["verdict"] != "ok" {
        assert Field(r["phase"]) && Field(r["signature"]);
      }
    }
  }

  lemma RegistryKeys()
    ensures (set c | c in REGISTRY_COLUMNS) == {"symbol", "class", "text", "sab", "signature", "probe_id", "note"}
  {
    var keys := set c | c in REGISTRY_COLUMNS;
    assert REGISTRY_COLUMNS[0] in keys && REGISTRY_COLUMNS[1] in keys && REGISTRY_COLUMNS[2] in keys && REGISTRY_COLUMNS[3] in keys;
    assert REGISTRY_COLUMNS[4] in keys && REGISTRY_COLUMNS[5] in keys && REGISTRY_COLUMNS[6] in keys;
  }

  lemma KnownRow(row: Row)
    requires "symbol" in row && "class" in row && "text" in row && "sab" in row && "signature" in row
    requires StatusOf(row["text"]).Some? && StatusOf(row["sab"]).Some?
    ensures KnownStatuses(row)
  {
  }

  lemma JoinedSound(row: Row)
    requires row.Keys == {"symbol", "class", "text", "sab", "signature", "probe_id", "note"}
    requires FieldRow(row)
    requires StatusOf(row["text"]).Some? && StatusOf(row["sab"]).Some?
    ensures Sound(row)
  {
    RegistryKeys();
    KnownRow(row);
    forall c | c in REGISTRY_COLUMNS ensures c in row {
      assert c in set c | c in REGISTRY_COLUMNS;
    }
  }

  lemma SignatureField(results: seq<Row>, row: Row)
    requires Keyed(results) && Probed(results, row).Success?
    requires forall r :: r in results ==> FieldRow(r)
    ensures Field(Probed(results, row).value["signature"])
  {
    var pid := row["probe_id"];
    var text, sab := Judged(results, pid, BACKENDS[0]).value, Judged(results, pid, BACKENDS[1]).value;
    PickIsLast(results, pid, BACKENDS[0]);
    PickIsLast(results, pid, BACKENDS[1]);
    SegmentField(BACKENDS[0], Pick(results, pid, BACKENDS[0]));
    SegmentField(BACKENDS[1], Pick(results, pid, BACKENDS[1]));
    JoinField(text.signatures + sab.signatures);
  }

  lemma JoinField(parts: seq<string>)
    requires forall p :: p in parts ==> Field(p)
    ensures Field(Join("; ", parts))
  {
    forall c | c in Join("; ", parts) ensures c != '\n' && c != '\r' && c != '\t' {
      JoinChars("; ", parts, c);
      if p :| p in parts && c in p {
        assert Field(p);
      }
    }
  }

  lemma StatusKnown(status: string)
    requires status in PROBED_STATUSES
    ensures StatusOf(status).Some? && Field(status)
  {
  }

  lemma JoinedFields(row: Row, text: Verdict, sab: Verdict)
    requires "probe_id" in row && Joined(row, text, sab).Success? && FieldRow(row)
    requires text.status in PROBED_STATUSES && sab.status in PROBED_STATUSES
    requires Field(Joined(row, text, sab).value["signature"])
    ensures Sound(Joined(row, text, sab).value)
  {
    var joined := Joined(row, text, sab).value;
    StatusKnown(text.status);
    StatusKnown(sab.status);
    assert Field(row["symbol"]) && Field(row["class"]) && Field(row["probe_id"]) && Field(row["note"]);
    JoinedSound(joined);
  }

  lemma ProbedSound(results: seq<Row>, row: Row)
    requires Keyed(results) && Probed(results, row).Success?
    requires FieldRow(row) && forall r :: r in results ==> FieldRow(r)
    ensures Sound(Probed(results, row).value)
  {
    var pid := row["probe_id"];
    SignatureField(results, row);
    Segments(BACKENDS[0], Pick(results, pid, BACKENDS[0]));
    Segments(BACKENDS[1], Pick(results, pid, BACKENDS[1]));
    JoinedFields(row, Judged(results, pid, BACKENDS[0]).value, Judged(results, pid, BACKENDS[1]).value);
  }
}
