/** What the audit pipeline promises in terms of its inputs, and where it does not. */
module Promises {
  import opened Strings
  import opened Ordering
  import opened Tsv
  import opened DeclaredNames
  import opened GenProbes
  import opened BuildRegistry
  import opened EmitRegistry
  import opened ZigTable
  import opened EntryText
  import opened HeadLines
  import opened EmittedTable
  import opened RegistryFile
  import opened Pipeline
  import opened SurfaceNames
  import opened EndToEnd

  // ----- only the direct rows -----

  lemma SameLeast(rows: seq<Row>, other: seq<Row>, row: Row)
    requires forall r :: r in rows && Visible(r) <==> r in other && Visible(r)
    ensures IsLeast(rows, row) <==> IsLeast(other, row)
  {
  }

  lemma SameAnswers(zig: ZigModule, rows: seq<Row>, other: seq<Row>)
    requires forall r :: r in rows && Visible(r) <==> r in other && Visible(r)
    ensures Answers(zig, rows) ==> Answers(zig, other)
  {
    if Answers(zig, rows) {
      forall symbol ensures AnswersFor(Ask(zig, symbol), symbol, other) {
        assert AnswersFor(Ask(zig, symbol), symbol, rows);
        if Ask(zig, symbol).Some? {
          var row :| IsLeast(rows, row) && Symbol(row) == symbol && Renders(Ask(zig, symbol).value, row);
          SameLeast(rows, other, row);
        }
      }
    }
  }

  /** The table is accepted and says what the direct rows say, exactly when the heads are harmless, the stamps can be
      shown, every visible direct row can be printed, and no name of a declaring std file brings a row with it. */
  ghost predicate Exact(text: string, direct: seq<Row>, pairs: seq<(string, string)>, pluginHead: string, stdHead: string) {
    var zig := Emitted(text);
    Accepted(zig) && Says(Decode(zig.value).value, direct) <==>
      && Harmless(pluginHead) && Harmless(stdHead) && Showable(text)
      && AllPrintable(direct) && AllContained(pairs)
  }

  lemma VisibleParts(probed: seq<Row>, pairs: seq<(string, string)>)
    requires forall p :: p in pairs ==> IsIdentifier(p.0)
    ensures |Filter(probed + ReceivedRows(pairs), Visible)| == |Filter(probed, Visible)| + |pairs|
    ensures |Filter(probed + SurfaceRows(pairs), Visible)| == |Filter(probed + ReceivedRows(pairs), Visible)|
       <==> AllContained(pairs)
    ensures AllContained(pairs) ==>
      forall r :: r in probed + SurfaceRows(pairs) && Visible(r) <==> r in probed + ReceivedRows(pairs) && Visible(r)
  {
    FilterAppend(probed, ReceivedRows(pairs), Visible);
    FilterAppend(probed, SurfaceRows(pairs), Visible);
    ReceivedAreRead(pairs);
    FilterAll(ReceivedRows(pairs), Visible);
    SurfaceVisible(pairs);
    if AllContained(pairs) {
      forall r | Visible(r) ensures r in SurfaceRows(pairs) <==> r in ReceivedRows(pairs) {
        assert r in SurfaceRows(pairs) <==> r in Filter(SurfaceRows(pairs), Visible);
      }
    }
  }

  lemma WithoutStrays(text: string, probed: seq<Row>, pairs: seq<(string, string)>, pluginHead: string, stdHead: string)
    requires forall p :: p in pairs ==> IsIdentifier(p.0)
    requires Faithful(text, probed + SurfaceRows(pairs), pluginHead, stdHead)
    ensures Exact(text, probed + ReceivedRows(pairs), pairs, pluginHead, stdHead)
  {
    var all, direct := probed + SurfaceRows(pairs), probed + ReceivedRows(pairs);
    VisibleParts(probed, pairs);
    ReceivedAreRead(pairs);
    var zig := Emitted(text);
    assert AllPrintable(all) ==> AllPrintable(direct);
    if AllContained(pairs) {
      assert AllPrintable(direct) ==> AllPrintable(all);
      if Accepted(zig) {
        SameAnswers(Decode(zig.value).value, all, direct);
      }
    }
  }

  /** For any inputs that the first two tools accept. */
  lemma DirectExactly(specText: string, templates: map<string, string>, listing: seq<(string, string)>,
                      resultsText: string, pluginHead: string, stdHead: string)
    ensures var results, spec := ReadTable(resultsText).rows, ReadTable(specText).rows;
      var registry := RegistryFrom(specText, templates, listing, resultsText, pluginHead, stdHead);
      registry.Success? ==>
        && Keyed(results) && DirectRows(results, spec, listing).Success?
        && Exact(registry.value, DirectRows(results, spec, listing).value, DeclPairs(listing), pluginHead, stdHead)
  {
    var results, spec := ReadTable(resultsText).rows, ReadTable(specText).rows;
    var registry := RegistryFrom(specText, templates, listing, resultsText, pluginHead, stdHead);
    if registry.Success? {
      LookupIsDirect(specText, templates, listing, resultsText, pluginHead, stdHead);
      PairsNamed(listing);
      WithoutStrays(registry.value, ProbedAll(results, Filter(spec, Carried)).value, DeclPairs(listing), pluginHead, stdHead);
    }
  }

  /** An accepted table says what the direct rows say when no name brings a row with it. */
  lemma AcceptedSays(specText: string, templates: map<string, string>, listing: seq<(string, string)>,
                     resultsText: string, pluginHead: string, stdHead: string)
    ensures var results, spec := ReadTable(resultsText).rows, ReadTable(specText).rows;
      var registry := RegistryFrom(specText, templates, listing, resultsText, pluginHead, stdHead);
      registry.Success? ==>
        && Keyed(results) && DirectRows(results, spec, listing).Success?
        && (Accepted(Emitted(registry.value)) && AllContained(DeclPairs(listing)) ==>
              Says(Decode(Emitted(registry.value).value).value, DirectRows(results, spec, listing).value))
  {
    var results, spec := ReadTable(resultsText).rows, ReadTable(specText).rows;
    var registry := RegistryFrom(specText, templates, listing, resultsText, pluginHead, stdHead);
    if registry.Success? {
      LookupIsDirect(specText, templates, listing, resultsText, pluginHead, stdHead);
      DirectExactly(specText, templates, listing, resultsText, pluginHead, stdHead);
      PairsNamed(listing);
      ReceivedAreRead(DeclPairs(listing));
    }
  }

  /** An accepted table has one entry for each carried spec row and one for each declared name and file, when no name
      brings a row with it and no symbol looks like a comment. */
  lemma EntryCount(specText: string, templates: map<string, string>, listing: seq<(string, string)>,
                   resultsText: string, pluginHead: string, stdHead: string)
    ensures var results, spec := ReadTable(resultsText).rows, ReadTable(specText).rows;
      var registry := RegistryFrom(specText, templates, listing, resultsText, pluginHead, stdHead);
      && registry.Success? && Accepted(Emitted(registry.value)) && AllContained(DeclPairs(listing))
      && (forall row :: row in spec ==> !StartsWith(Symbol(row), "#")) ==>
        |Decode(Emitted(registry.value).value).value.entries| == |Filter(spec, Carried)| + |DeclPairs(listing)|
  {
    var results, spec := ReadTable(resultsText).rows, ReadTable(specText).rows;
    var registry := RegistryFrom(specText, templates, listing, resultsText, pluginHead, stdHead);
    if && registry.Success? && Accepted(Emitted(registry.value)) && AllContained(DeclPairs(listing))
       && (forall row :: row in spec ==> !StartsWith(Symbol(row), "#"))
    {
      AcceptedSays(specText, templates, listing, resultsText, pluginHead, stdHead);
      PairsNamed(listing);
      ReadTableFields(specText);
      ReadTableFields(resultsText);
      VisibleParts(ProbedAll(results, Filter(spec, Carried)).value, DeclPairs(listing));
      CarriedVisible(results, spec);
    }
  }

  lemma CarriedVisible(results: seq<Row>, spec: seq<Row>)
    requires Keyed(results) && ProbedAll(results, Filter(spec, Carried)).Success?
    requires forall r :: r in results || r in spec ==> FieldRow(r)
    requires forall row :: row in spec ==> !StartsWith(Symbol(row), "#")
    ensures |Filter(ProbedAll(results, Filter(spec, Carried)).value, Visible)| == |Filter(spec, Carried)|
  {
    var carried := Filter(spec, Carried);
    var probed := ProbedAll(results, carried).value;
    ProbedRowsSound(results, spec);
    forall row | row in probed ensures Visible(row) {
      var i :| 0 <= i < |probed| && probed[i] == row;
      assert carried[i] in carried;
      KeptSymbol(results, carried[i]);
      SoundVisible(row);
    }
    FilterAll(probed, Visible);
  }

  lemma KeptSymbol(results: seq<Row>, row: Row)
    requires Keyed(results) && Probed(results, row).Success?
    ensures Symbol(Probed(results, row).value) == Symbol(row)
  {
  }

  // ----- a name that brings a row with it -----

  /** A file name on two lines, the second of which reads as a registry row. */
  function TwoLineName(symbol: string): string {
    "a\n" + (symbol + "\tc\tok\tok\t.sla")
  }

  const ONE_DECLARATION := "fn f(\n"

  lemma DeclarationLine()
    ensures FileLines(ONE_DECLARATION) == ["fn f("]
  {
    FileLinesOfUnlines(["fn f("]);
    assert Unlines(["fn f("]) == "fn f(" + (['\n'] + "");
    assert "fn f(" + (['\n'] + "") == ONE_DECLARATION;
  }

  lemma StrippedF()
    ensures Strip("fn f(") == "fn f("
  {
    assert StripLeft("fn f(") == "fn f(";
    assert StripRight("fn f(") == "fn f(";
  }

  lemma OpensF()
    ensures OpensFn("fn f(", "f", " ", "", "")
  {
    assert "fn" + (" " + ("f" + ("" + ("(" + "")))) == "fn f(";
  }

  lemma MatchesF()
    ensures MatchDecl("fn f(") == Some("f")
  {
    OpensF();
    MatchDeclExact("fn f(", "f");
  }

  lemma DeclaresF()
    ensures DeclaredName("fn f(") == Some("f")
  {
    StrippedF();
    MatchesF();
  }

  lemma FlatMapOne<T, U>(x: T, f: T -> seq<U>)
    ensures FlatMap([x], f) == f(x)
  {
    assert [x][1..] == [];
  }

  lemma PairsOne(line: string, find: string -> Option<string>, name: string, file: string)
    requires find(line) == Some(name)
    ensures LineDecls([line], find, file) == [(name, file)]
  {
    FlatMapOne(line, Pairs(find, file));
  }

  /** A single file with that declaration declares `f`. */
  lemma OneFileDeclares(file: string)
    requires EndsWith(file, ".sla")
    ensures DeclPairs([(file, ONE_DECLARATION)]) == [("f", file)]
  {
    DeclarationLine();
    DeclaresF();
    PairsOne("fn f(", DeclaredName, "f", file);
    FlatMapOne((file, ONE_DECLARATION), FileDecls);
    OneSorted(("f", file));
  }

  lemma OneSorted(pair: (string, string))
    ensures Sort(Dedup([pair]), PairBelow) == [pair]
  {
    assert [pair][..0] == [];
    assert Dedup([pair]) == [pair];
    assert [pair][1..] == [];
  }

  lemma SecondLine(symbol: string)
    requires Field(symbol)
    ensures Further(TwoLineName(symbol) + ")") == [symbol + "\tc\tok\tok\t.sla)"]
  {
    var rest := symbol + "\tc\tok\tok\t.sla)";
    var head := TwoLineName(symbol) + ")";
    assert head == "a" + (['\n'] + rest);
    assert '\r' !in head + "\n" && '\n' !in rest;
    assert Inside(head) == head;
    SplitAtFirst("a", '\n', rest);
    assert Strings.Find(rest, '\n') == |rest|;
  }

  lemma SecondColumns(symbol: string)
    requires Field(symbol)
    ensures Split(symbol + "\tc\tok\tok\t.sla)", '\t') == [symbol, "c", "ok", "ok", ".sla)"]
  {
    var parts := [symbol, "c", "ok", "ok", ".sla)"];
    assert parts[1..] == ["c", "ok", "ok", ".sla)"] && parts[1..][1..] == ["ok", "ok", ".sla)"]
        && parts[1..][1..][1..] == ["ok", ".sla)"] && parts[1..][1..][1..][1..] == [".sla)"];
    assert Join("\t", ["ok", ".sla)"]) == "ok\t.sla)";
    assert Join("\t", ["ok", "ok", ".sla)"]) == "ok\tok\t.sla)";
    assert Join("\t", ["c", "ok", "ok", ".sla)"]) == "c\tok\tok\t.sla)";
    assert Join("\t", parts) == symbol + ("\t" + "c\tok\tok\t.sla)");
    assert symbol + ("\t" + "c\tok\tok\t.sla)") == symbol + "\tc\tok\tok\t.sla)";
    SplitJoin(parts, '\t');
  }

  lemma SecondRow(symbol: string)
    requires Field(symbol)
    ensures var row := ParseRow(REGISTRY_COLUMNS, symbol + "\tc\tok\tok\t.sla)");
      && "symbol" in row && "class" in row && "text" in row && "sab" in row && "signature" in row
      && row["symbol"] == symbol && row["class"] == "c" && row["text"] == "ok" && row["sab"] == "ok" && row["signature"] == ".sla)"
  {
    SecondColumns(symbol);
    FiveColumns([symbol, "c", "ok", "ok", ".sla)"]);
  }

  lemma FiveColumns(parts: seq<string>)
    requires |parts| == 5
    ensures var row := Zip(REGISTRY_COLUMNS, Pad(parts, |REGISTRY_COLUMNS|));
      && "symbol" in row && "class" in row && "text" in row && "sab" in row && "signature" in row
      && row["symbol"] == parts[0] && row["class"] == parts[1] && row["text"] == parts[2] && row["sab"] == parts[3]
      && row["signature"] == parts[4]
  {
    var padded := Pad(parts, |REGISTRY_COLUMNS|);
    RegistryColumns();
    assert REGISTRY_COLUMNS[0] in REGISTRY_COLUMNS && REGISTRY_COLUMNS[1] in REGISTRY_COLUMNS
        && REGISTRY_COLUMNS[2] in REGISTRY_COLUMNS && REGISTRY_COLUMNS[3] in REGISTRY_COLUMNS
        && REGISTRY_COLUMNS[4] in REGISTRY_COLUMNS;
    ZipAt(REGISTRY_COLUMNS, padded, 0);
    ZipAt(REGISTRY_COLUMNS, padded, 1);
    ZipAt(REGISTRY_COLUMNS, padded, 2);
    ZipAt(REGISTRY_COLUMNS, padded, 3);
    ZipAt(REGISTRY_COLUMNS, padded, 4);
  }

  lemma SecondHasText(symbol: string)
    ensures HasText(symbol + "\tc\tok\tok\t.sla)")
  {
    var line := symbol + "\tc\tok\tok\t.sla)";
    assert line[|symbol| + 1] == 'c' && line[|symbol| + 1] in line;
  }

  /** The row of the declaration. */
  ghost predicate PicturedF(row: Row) {
    Sound(row) && row["symbol"] == "f" && row["class"] == "declared" && row["signature"] == ""
  }

  /** The row of the second line of the name. */
  ghost predicate PicturedStray(row: Row, symbol: string) {
    && Sound(row) && row["symbol"] == symbol && row["class"] == "c" && row["signature"] == ".sla)"
    && row["text"] == "ok" && row["sab"] == "ok"
  }

  /** The row that the builder reads from the second line. */
  lemma StrayRow(symbol: string) returns (row: Row)
    requires Field(symbol)
    ensures StrayRows(TwoLineName(symbol)) == [row] && PicturedStray(row, symbol)
  {
    var line := symbol + "\tc\tok\tok\t.sla)";
    SecondLine(symbol);
    SecondRow(symbol);
    row := ParseRow(REGISTRY_COLUMNS, line);
    LinesOfName(TwoLineName(symbol) + ")");
    assert line in Further(TwoLineName(symbol) + ")");
    ParsedShaped(line);
    KnownRow(row);
    SecondHasText(symbol);
    OneLineKept(line);
  }

  lemma OneLineKept(line: string)
    requires HasText(line)
    ensures ParseRows(REGISTRY_COLUMNS, Filter([line], HasText)) == [ParseRow(REGISTRY_COLUMNS, line)]
  {
    assert [line][1..] == [];
    assert Filter([line], HasText) == [line];
  }

  lemma OneLineTable(line: string)
    requires NoBreak(line) && HasText(line)
    ensures NonBlankLines(line) == [line] && ReadTable(line).rows == []
  {
    assert Strings.Find(line, '\n') == |line|;
    assert FileLines(line) == [line];
    assert [line][1..] == [];
    assert Filter([line], HasText) == [line];
  }

  lemma EmptyInputs()
    ensures ReadTable("").rows == [] && ReadTable("probe_id").rows == [] && NonBlankLines("probe_id") != []
  {
    assert FileLines("") == [];
    NotBlank("probe_id");
    OneLineTable("probe_id");
  }

  lemma NoManifest(templates: map<string, string>, listing: seq<(string, string)>)
    ensures Generated(map[], "", "", "probe_id", templates, listing).outcome.Success?
  {
    EmptyInputs();
    GeneratorSucceeds(map[], "", "", "probe_id", templates, listing);
  }

  /** The rows of a registry over an empty spec and no results. */
  lemma OnlySurface(listing: seq<(string, string)>)
    ensures RegistryRows([], [], listing) == Success(SurfaceRows(DeclPairs(listing)))
    ensures DirectRows([], [], listing) == Success(ReceivedRows(DeclPairs(listing)))
  {
    var none: seq<Row> := [];
    assert Filter(none, Carried) == none;
    assert ProbedAll(none, none) == Success(none);
    assert [] + SurfaceRows(DeclPairs(listing)) == SurfaceRows(DeclPairs(listing));
    assert [] + ReceivedRows(DeclPairs(listing)) == ReceivedRows(DeclPairs(listing));
  }

  lemma TwoLineNameEnds(symbol: string)
    ensures EndsWith(TwoLineName(symbol), ".sla")
  {
    assert TwoLineName(symbol) == ("a\n" + (symbol + "\tc\tok\tok\t")) + ".sla";
  }

  lemma OnePair(pair: (string, string), stray: Row)
    requires StrayRows(pair.1) == [stray]
    ensures SurfaceRows([pair]) == [ReceivedRow(pair), stray] && ReceivedRows([pair]) == [ReceivedRow(pair)]
  {
    FlatMapOne(pair, PairRows);
    assert ReceivedRows([pair][1..]) == [];
  }

  lemma TwoRows(symbol: string, stray: Row)
    requires StrayRows(TwoLineName(symbol)) == [stray]
    ensures var pairs := DeclPairs([(TwoLineName(symbol), ONE_DECLARATION)]);
      var received := ReceivedRow(("f", TwoLineName(symbol)));
      SurfaceRows(pairs) == [received, stray] && ReceivedRows(pairs) == [received]
  {
    TwoLineNameEnds(symbol);
    OneFileDeclares(TwoLineName(symbol));
    OnePair(("f", TwoLineName(symbol)), stray);
  }

  lemma NoStamp(symbol: string)
    requires !StartsWith(symbol, "#")
    ensures !StartsWith(symbol, PLUGIN_STAMP) && !StartsWith(symbol, STD_STAMP)
  {
    HashOpens(symbol);
    PluginColon();
    StdColon();
  }

  lemma PrintedRow(row: Row)
    requires Sound(row) && "class" in row && "signature" in row
    requires Printable(row["symbol"]) && Printable(row["class"]) && Printable(row["signature"])
    ensures Printed(row)
  {
  }

  /** The symbol is found, with both statuses `ok`. */
  ghost predicate FoundFine(zig: ZigModule, symbol: string) {
    var found := Ask(zig, symbol);
    found.Some? && found.value.text == Ok && found.value.sab == Ok
  }

  lemma FoundStray(zig: ZigModule, received: Row, stray: Row, symbol: string)
    requires Answers(zig, [received, stray]) && Visible(stray)
    requires Symbol(received) != symbol && Symbol(stray) == symbol && Sound(stray) && stray["text"] == "ok" && stray["sab"] == "ok"
    ensures FoundFine(zig, symbol)
  {
    assert AnswersFor(Ask(zig, symbol), symbol, [received, stray]);
    assert stray in [received, stray];
  }

  lemma TwoStamps(received: Row, stray: Row)
    requires !StartsWith(Symbol(received), "#") && !StartsWith(Symbol(stray), "#")
    ensures NoStamps([received, stray])
  {
    NoStamp(Symbol(received));
    NoStamp(Symbol(stray));
  }

  lemma AcceptedRows(text: string, rows: seq<Row>, pluginHead: string, stdHead: string)
    requires Faithful(text, rows, pluginHead, stdHead) && NoStamps(rows) && forall row :: row in rows ==> Printed(row)
    requires NoBreak(pluginHead) && NoBreak(stdHead) && Presentable(Strip(pluginHead)) && Presentable(Strip(stdHead))
    ensures Accepted(Emitted(text)) && Answers(Decode(Emitted(text).value).value, rows)
  {
  }

  lemma NotedF(row: Row, note: string)
    requires row == NotedRow("f", note) && Sound(row)
    ensures PicturedF(row)
  {
  }

  lemma ReceivedF(file: string)
    ensures PicturedF(ReceivedRow(("f", file)))
  {
    var pair := ("f", file);
    assert IsIdentifier(pair.0);
    ReceivedSound(pair);
    NotedF(ReceivedRow(pair), NOTE_FRONT + Kept(file));
  }

  lemma BothPrinted(received: Row, stray: Row, symbol: string)
    requires PicturedF(received) && PicturedStray(stray, symbol) && Printable(symbol)
    ensures forall row :: row in [received, stray] ==> Printed(row)
  {
    PrintedRow(received);
    PrintedRow(stray);
  }

  lemma PicturedAnswer(text: string, received: Row, stray: Row, symbol: string, pluginHead: string, stdHead: string)
    requires Faithful(text, [received, stray], pluginHead, stdHead) && PicturedF(received) && PicturedStray(stray, symbol)
    requires Printable(symbol) && !StartsWith(symbol, "#") && symbol != "f"
    requires NoBreak(pluginHead) && NoBreak(stdHead) && Presentable(Strip(pluginHead)) && Presentable(Strip(stdHead))
    ensures Accepted(Emitted(text)) && FoundFine(Decode(Emitted(text).value).value, symbol)
  {
    HashOpens("f");
    TwoStamps(received, stray);
    BothPrinted(received, stray, symbol);
    AcceptedRows(text, [received, stray], pluginHead, stdHead);
    SoundVisible(stray);
    FoundStray(Decode(Emitted(text).value).value, received, stray, symbol);
  }

  /** A registry over an empty spec and no results holds the declared plane. */
  lemma SurfaceRegistry(listing: seq<(string, string)>, pluginHead: string, stdHead: string)
    ensures var registry := RegistryFrom("probe_id", map[], listing, "", pluginHead, stdHead);
      registry.Success? && Faithful(registry.value, SurfaceRows(DeclPairs(listing)), pluginHead, stdHead)
  {
    EmptyInputs();
    NoManifest(map[], listing);
    OnlySurface(listing);
    LookupIsDirect("probe_id", map[], listing, "", pluginHead, stdHead);
  }

  lemma NoOther(rows: seq<Row>, received: Row, symbol: string)
    requires rows == [received] && PicturedF(received) && symbol != "f"
    ensures forall row :: row in rows ==> Symbol(row) != symbol
  {
  }

  lemma DirectIsReceived(symbol: string, stray: Row)
    requires StrayRows(TwoLineName(symbol)) == [stray] && symbol != "f"
    ensures var direct := DirectRows([], [], [(TwoLineName(symbol), ONE_DECLARATION)]);
      direct.Success? && forall row :: row in direct.value ==> Symbol(row) != symbol
  {
    var listing := [(TwoLineName(symbol), ONE_DECLARATION)];
    OnlySurface(listing);
    TwoRows(symbol, stray);
    ReceivedF(TwoLineName(symbol));
    NoOther(ReceivedRows(DeclPairs(listing)), ReceivedRow(("f", TwoLineName(symbol))), symbol);
  }

  /** Whatever the symbol: a std file with such a name, and no spec row, result or declaration of the symbol at all,
      give an accepted table in which the symbol is found, with both statuses `ok`. */
  lemma NameBringsRow(symbol: string, pluginHead: string, stdHead: string)
    requires Field(symbol) && Printable(symbol) && !StartsWith(symbol, "#") && symbol != "f"
    requires NoBreak(pluginHead) && NoBreak(stdHead) && Presentable(Strip(pluginHead)) && Presentable(Strip(stdHead))
    ensures var listing := [(TwoLineName(symbol), ONE_DECLARATION)];
      var registry := RegistryFrom("probe_id", map[], listing, "", pluginHead, stdHead);
      && registry.Success? && Accepted(Emitted(registry.value))
      && DirectRows([], [], listing).Success?
      && (forall row :: row in DirectRows([], [], listing).value ==> Symbol(row) != symbol)
      && FoundFine(Decode(Emitted(registry.value).value).value, symbol)
  {
    var listing := [(TwoLineName(symbol), ONE_DECLARATION)];
    SurfaceRegistry(listing, pluginHead, stdHead);
    var stray := StrayRow(symbol);
    TwoRows(symbol, stray);
    ReceivedF(TwoLineName(symbol));
    DirectIsReceived(symbol, stray);
    var text := RegistryFrom("probe_id", map[], listing, "", pluginHead, stdHead).value;
    PicturedAnswer(text, ReceivedRow(("f", TwoLineName(symbol))), stray, symbol, pluginHead, stdHead);
  }
}
