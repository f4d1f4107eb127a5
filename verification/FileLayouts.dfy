/** The files of the audit pipeline, as they are written: the columns, their order, and the order of the lines. */
module FileLayouts {
  import opened Strings
  import opened Ordering
  import opened Tsv
  import opened GenProbes
  import opened BuildRegistry
  import opened RegistryFacts
  import opened Pipeline
  import opened SurfaceNames
  import opened EndToEnd

  // ----- one line -----

  lemma JoinFour(a: string, b: string, c: string, d: string)
    ensures Join("\t", [a, b, c, d]) == a + "\t" + b + "\t" + c + "\t" + d
  {
    assert [a, b, c, d][1..] == [b, c, d] && [b, c, d][1..] == [c, d] && [c, d][1..] == [d];
    assert Join("\t", [c, d]) == c + ("\t" + d);
    assert Join("\t", [b, c, d]) == b + ("\t" + (c + ("\t" + d)));
    assert a + ("\t" + (b + ("\t" + (c + ("\t" + d))))) == a + "\t" + b + "\t" + c + "\t" + d;
  }

  lemma JoinSeven(a: string, b: string, c: string, d: string, e: string, f: string, g: string)
    ensures Join("\t", [a, b, c, d, e, f, g]) == a + "\t" + b + "\t" + c + "\t" + d + "\t" + e + "\t" + f + "\t" + g
  {
    assert [a, b, c, d, e, f, g][1..] == [b, c, d, e, f, g] && [b, c, d, e, f, g][1..] == [c, d, e, f, g]
        && [c, d, e, f, g][1..] == [d, e, f, g];
    JoinFour(d, e, f, g);
    var tail := d + "\t" + e + "\t" + f + "\t" + g;
    assert Join("\t", [c, d, e, f, g]) == c + ("\t" + tail);
    assert Join("\t", [b, c, d, e, f, g]) == b + ("\t" + (c + ("\t" + tail)));
    assert a + ("\t" + (b + ("\t" + (c + ("\t" + tail))))) == a + "\t" + b + "\t" + c + "\t" + tail;
    assert a + "\t" + b + "\t" + c + "\t" + tail == a + "\t" + b + "\t" + c + "\t" + d + "\t" + e + "\t" + f + "\t" + g;
  }

  ghost predicate RegistryColumnsIn(row: Row) {
    && "symbol" in row && "class" in row && "text" in row && "sab" in row && "signature" in row && "probe_id" in row
    && "note" in row
  }

  /** Symbol, class, the two statuses, signature, probe id and note, with a tab between them. */
  ghost function RowLine(row: Row): string
    requires RegistryColumnsIn(row)
  {
    row["symbol"] + "\t" + row["class"] + "\t" + row["text"] + "\t" + row["sab"] + "\t" + row["signature"] + "\t"
    + row["probe_id"] + "\t" + row["note"]
  }

  lemma TextIsRowLine(row: Row)
    requires HasColumns(row, REGISTRY_COLUMNS)
    ensures RegistryColumnsIn(row) && Text(row) == RowLine(row)
  {
    var fields := Fields(row, REGISTRY_COLUMNS);
    assert REGISTRY_COLUMNS[0] in REGISTRY_COLUMNS && REGISTRY_COLUMNS[1] in REGISTRY_COLUMNS && REGISTRY_COLUMNS[2] in REGISTRY_COLUMNS
        && REGISTRY_COLUMNS[3] in REGISTRY_COLUMNS && REGISTRY_COLUMNS[4] in REGISTRY_COLUMNS && REGISTRY_COLUMNS[5] in REGISTRY_COLUMNS
        && REGISTRY_COLUMNS[6] in REGISTRY_COLUMNS;
    assert fields == [row["symbol"], row["class"], row["text"], row["sab"], row["signature"], row["probe_id"], row["note"]];
    JoinSeven(row["symbol"], row["class"], row["text"], row["sab"], row["signature"], row["probe_id"], row["note"]);
  }

  lemma RegistryHeaderText()
    ensures Join("\t", REGISTRY_COLUMNS) == "symbol\tclass\ttext\tsab\tsignature\tprobe_id\tnote"
  {
    JoinSeven("symbol", "class", "text", "sab", "signature", "probe_id", "note");
    assert REGISTRY_COLUMNS == ["symbol", "class", "text", "sab", "signature", "probe_id", "note"];
    HeaderPieces();
  }

  lemma HeaderPieces()
    ensures "symbol" + "\t" + "class" + "\t" + "text" + "\t" + "sab" + "\t" + "signature" + "\t" + "probe_id" + "\t" + "note"
         == "symbol\tclass\ttext\tsab\tsignature\tprobe_id\tnote"
  {
    assert "symbol" + "\t" + "class" + "\t" + "text" + "\t" == "symbol\tclass\ttext\t";
    assert "symbol\tclass\ttext\t" + "sab" + "\t" + "signature" + "\t" == "symbol\tclass\ttext\tsab\tsignature\t";
  }

  // ----- manifest.tsv -----

  ghost predicate ManifestColumnsIn(row: Row) {
    "probe_id" in row && "symbol" in row && "class" in row && "note" in row
  }

  ghost function ManifestLine(row: Row): string
    requires ManifestColumnsIn(row)
  {
    row["probe_id"] + "\t" + row["symbol"] + "\t" + row["class"] + "\t" + row["note"]
  }

  lemma ManifestLineText(row: Row)
    requires HasColumns(row, MANIFEST_COLUMNS)
    ensures ManifestColumnsIn(row) && Line(row, MANIFEST_COLUMNS) == ManifestLine(row)
  {
    InManifest(row);
    assert Fields(row, MANIFEST_COLUMNS) == [row["probe_id"], row["symbol"], row["class"], row["note"]];
    JoinFour(row["probe_id"], row["symbol"], row["class"], row["note"]);
  }

  lemma ManifestHeader()
    ensures Join("\t", MANIFEST_COLUMNS) == "probe_id\tsymbol\tclass\tnote"
  {
    JoinFour("probe_id", "symbol", "class", "note");
    assert MANIFEST_COLUMNS == ["probe_id", "symbol", "class", "note"];
    assert "probe_id" + "\t" + "symbol" + "\t" + "class" + "\t" + "note" == "probe_id\tsymbol\tclass\tnote";
  }

  lemma {:induction false} WrittenAt(rows: seq<Row>, columns: seq<string>)
    requires forall row :: row in rows ==> HasColumns(row, columns)
    ensures |WrittenLines(rows, columns).0| == |rows|
    ensures forall i :: 0 <= i < |rows| ==> HasColumns(rows[i], columns) && WrittenLines(rows, columns).0[i] == Line(rows[i], columns)
  {
    if rows != [] {
      WrittenAt(rows[1..], columns);
    }
  }

  /** One line for each spec row, in the order of the spec, under the four columns. */
  ghost predicate IsManifest(text: string, spec: seq<Row>, lines: seq<string>) {
    && text == Unlines(["probe_id\tsymbol\tclass\tnote"] + lines) && |lines| == |spec|
    && forall i :: 0 <= i < |spec| ==> ManifestColumnsIn(spec[i]) && lines[i] == ManifestLine(spec[i])
  }

  // ----- decl_rows.tsv -----

  ghost function DeclaredLine(pair: (string, string)): string {
    pair.0 + "\tdeclared\tdecl\tdecl\t\t\t" + "std .sla declaration plane (from " + pair.1 + ")"
  }

  lemma DeclaredLineText(pair: (string, string))
    ensures HasColumns(DeclRow(pair.0, pair.1), REGISTRY_COLUMNS)
    ensures Line(DeclRow(pair.0, pair.1), REGISTRY_COLUMNS) == DeclaredLine(pair)
  {
    var row := DeclRow(pair.0, pair.1);
    TextIsRowLine(row);
    assert NOTE_FRONT == "std .sla declaration plane (from ";
    DeclaredPieces(pair.0, pair.1);
  }

  lemma ClassAndStatuses()
    ensures "\t" + "declared" + "\t" == "\tdeclared\t"
    ensures "\tdeclared\t" + "decl" + "\t" == "\tdeclared\tdecl\t"
    ensures "\tdeclared\tdecl\t" + "decl" + "\t" + "" + "\t" + "" + "\t" == "\tdeclared\tdecl\tdecl\t\t\t"
  {
  }

  lemma FrontPieces(s: string, a: string, b: string, c: string, d: string, e: string, f: string, g: string)
    ensures s + a + b + c + d + e + f + g + "" + c + "" + c == s + (a + b + c + d + e + f + g + "" + c + "" + c)
  {
  }

  lemma DeclaredPieces(symbol: string, file: string)
    ensures symbol + "\t" + "declared" + "\t" + "decl" + "\t" + "decl" + "\t" + "" + "\t" + "" + "\t"
            + ("std .sla declaration plane (from " + (file + ")"))
         == symbol + "\tdeclared\tdecl\tdecl\t\t\t" + "std .sla declaration plane (from " + file + ")"
  {
    ClassAndStatuses();
    FrontPieces(symbol, "\t", "declared", "\t", "decl", "\t", "decl", "\t");
    NotePieces(symbol + "\tdeclared\tdecl\tdecl\t\t\t", "std .sla declaration plane (from ", file, ")");
  }

  lemma NotePieces(a: string, b: string, c: string, d: string)
    ensures a + (b + (c + d)) == a + b + c + d
  {
  }

  /** The pairs in the order of names, and of files among equal names, each once. */
  ghost predicate InPairOrder(pairs: seq<(string, string)>) {
    forall i, j :: 0 <= i < j < |pairs| ==> pairs[i] != pairs[j] && PairPrecedes(pairs[i], pairs[j])
  }

  /** Every declared name with every file that declares it, each pair once and in order. */
  ghost predicate IsDeclaredPlane(pairs: seq<(string, string)>, listing: seq<(string, string)>) {
    && InPairOrder(pairs)
    && forall d :: d in pairs <==> exists f :: f in listing && f.0 == d.1 && Declares(f, d.0)
  }

  lemma DeclaredPlane(listing: seq<(string, string)>)
    ensures IsDeclaredPlane(DeclPairs(listing), listing)
  {
    var declared := Declared(listing);
    var once, pairs := Dedup(declared), DeclPairs(listing);
    PairBelowPreorder(declared);
    SortCorrect(once, PairBelow);
    SortMembers(once, PairBelow);
    forall d ensures d in pairs <==> exists f :: f in listing && f.0 == d.1 && Declares(f, d.0) {
      DeclaredMembers(listing, d);
    }
    forall i, j | 0 <= i < j < |pairs| ensures pairs[i] != pairs[j] && PairPrecedes(pairs[i], pairs[j]) {
      assert PairBelow(pairs[i], pairs[j]);
      PairBelowMeaning(pairs[i], pairs[j]);
      if pairs[i] == pairs[j] {
        TwiceIn(pairs, i, j);
        DistinctMultiplicity(once, pairs[i]);
      }
    }
  }

  lemma TwiceIn<T>(ys: seq<T>, i: nat, j: nat)
    requires i < j < |ys| && ys[i] == ys[j]
    ensures multiset(ys)[ys[i]] >= 2
  {
    assert ys == ys[..i] + ([ys[i]] + ys[i + 1..j] + [ys[j]] + ys[j + 1..]);
  }

  ghost predicate IsDeclaredFile(text: string, pairs: seq<(string, string)>, lines: seq<string>) {
    && text == Unlines(["symbol\tclass\ttext\tsab\tsignature\tprobe_id\tnote"] + lines) && |lines| == |pairs|
    && forall i :: 0 <= i < |pairs| ==> lines[i] == DeclaredLine(pairs[i])
  }

  lemma DeclaredFileText(pairs: seq<(string, string)>)
    ensures IsDeclaredFile(TableText(REGISTRY_COLUMNS, WrittenLines(DeclRows(pairs), REGISTRY_COLUMNS).0), pairs,
                           WrittenLines(DeclRows(pairs), REGISTRY_COLUMNS).0)
  {
    var rows := DeclRows(pairs);
    RegistryHeaderText();
    WrittenAt(rows, REGISTRY_COLUMNS);
    forall i | 0 <= i < |pairs| ensures Line(rows[i], REGISTRY_COLUMNS) == DeclaredLine(pairs[i]) {
      DeclaredLineText(pairs[i]);
    }
  }

  /** What a successful run of the generator writes, character by character. */
  lemma GeneratedFiles(
      before: map<string, string>, manifest: string, declRows: string, specText: string, templates: map<string, string>,
      listing: seq<(string, string)>)
    ensures var run := Generated(before, manifest, declRows, specText, templates, listing);
      run.outcome.Success? ==>
        && (exists lines :: IsManifest(run.manifest, ReadTable(specText).rows, lines))
        && (exists pairs, lines :: IsDeclaredPlane(pairs, listing) && IsDeclaredFile(run.declRows, pairs, lines))
  {
    var run := Generated(before, manifest, declRows, specText, templates, listing);
    if run.outcome.Success? {
      var spec := ReadTable(specText).rows;
      GeneratedTables(before, manifest, declRows, specText, templates, listing);
      WrittenSucceeds(spec, MANIFEST_COLUMNS);
      ManifestText(spec);
      assert IsManifest(run.manifest, spec, WrittenLines(spec, MANIFEST_COLUMNS).0);
      DeclaredPlane(listing);
      DeclaredFileText(DeclPairs(listing));
    }
  }

  lemma ManifestText(spec: seq<Row>)
    requires forall row :: row in spec ==> HasColumns(row, MANIFEST_COLUMNS)
    ensures IsManifest(TableText(MANIFEST_COLUMNS, WrittenLines(spec, MANIFEST_COLUMNS).0), spec, WrittenLines(spec, MANIFEST_COLUMNS).0)
  {
    ManifestHeader();
    WrittenAt(spec, MANIFEST_COLUMNS);
    forall i | 0 <= i < |spec|
      ensures ManifestColumnsIn(spec[i]) && Line(spec[i], MANIFEST_COLUMNS) == ManifestLine(spec[i])
    {
      ManifestLineText(spec[i]);
    }
  }

  // ----- registry.tsv -----

  ghost predicate InOrder(lines: seq<string>) {
    forall i, j :: 0 <= i < j < |lines| ==> Precedes(lines[i], lines[j])
  }

  ghost predicate AreLines(lines: seq<string>, rows: seq<Row>) {
    |lines| == |rows| && forall i :: 0 <= i < |rows| ==> RegistryColumnsIn(rows[i]) && lines[i] == RowLine(rows[i])
  }

  /** The four head lines, then the lines of the rows, in the order of the alphabet. */
  ghost predicate IsRegistry(text: string, unsorted: seq<string>, sorted: seq<string>, pluginHead: string, stdHead: string) {
    && text == Unlines(HeadOf(pluginHead, stdHead) + sorted)
    && multiset(sorted) == multiset(unsorted) && InOrder(sorted)
  }

  ghost function HeadOf(pluginHead: string, stdHead: string): seq<string> {
    ["# DEF-SAB-AUDIT registration " + "registry — GENERATED by " + "tools/sab_audit/regen.sh; " + "do not edit by hand.",
     "# plugin_head: " + pluginHead, "# sa_std_head: " + stdHead, "symbol\tclass\ttext\tsab\tsignature\tprobe_id\tnote"]
  }

  lemma HeadText(pluginHead: string, stdHead: string)
    ensures Stamps(pluginHead, stdHead) == HeadOf(pluginHead, stdHead)
  {
    RegistryHeaderText();
    assert PLUGIN_STAMP + " " == "# plugin_head: " && STD_STAMP + " " == "# sa_std_head: ";
  }

  lemma RegistryTextIs(body: seq<string>, pluginHead: string, stdHead: string)
    ensures IsRegistry(RegistryText(body, pluginHead, stdHead), body, Sort(body, Below), pluginHead, stdHead)
  {
    var sorted := Sort(body, Below);
    HeadText(pluginHead, stdHead);
    UnlinesIsJoin(Stamps(pluginHead, stdHead) + sorted);
    BelowPreorder(body);
    SortCorrect(body, Below);
    forall i, j | 0 <= i < j < |sorted| ensures Precedes(sorted[i], sorted[j]) {
      assert Below(sorted[i], sorted[j]);
      BelowMeaning(sorted[i], sorted[j]);
    }
  }

  lemma BodyLines(body: seq<string>, rows: seq<Row>)
    requires IsBody(body, rows) && forall row :: row in rows ==> HasColumns(row, REGISTRY_COLUMNS)
    ensures AreLines(body, rows)
  {
    forall i | 0 <= i < |rows| ensures RegistryColumnsIn(rows[i]) && body[i] == RowLine(rows[i]) {
      assert rows[i] in rows;
      TextIsRowLine(rows[i]);
    }
  }

  /** The text holds the registry rows. */
  ghost predicate Holds(text: string, rows: seq<Row>, pluginHead: string, stdHead: string) {
    exists lines, sorted :: AreLines(lines, rows) && IsRegistry(text, lines, sorted, pluginHead, stdHead)
  }

  lemma BodyHolds(body: seq<string>, rows: seq<Row>, pluginHead: string, stdHead: string)
    requires IsBody(body, rows) && forall row :: row in rows ==> HasColumns(row, REGISTRY_COLUMNS)
    ensures Holds(RegistryText(body, pluginHead, stdHead), rows, pluginHead, stdHead)
  {
    BodyLines(body, rows);
    RegistryTextIs(body, pluginHead, stdHead);
  }

  lemma TablesHold(results: seq<Row>, manifest: seq<Row>, spec: seq<Row>, listing: seq<(string, string)>,
                   pluginHead: string, stdHead: string)
    requires Keyed(results) ==> ProbedAll(results, manifest) == ProbedAll(results, Filter(spec, Carried))
    ensures var registry := RegistryOf(results, manifest, SurfaceRows(DeclPairs(listing)), pluginHead, stdHead);
      registry.Success? ==>
        && Keyed(results) && RegistryRows(results, spec, listing).Success?
        && Holds(registry.value, RegistryRows(results, spec, listing).value, pluginHead, stdHead)
  {
    BuilderIsDirect(results, manifest, spec, listing);
    var body := Body(results, manifest, SurfaceRows(DeclPairs(listing)));
    if body.Success? {
      SurfaceColumns(listing);
      BodyHolds(body.value, RegistryRows(results, spec, listing).value, pluginHead, stdHead);
    }
  }

  /** The registry that the first two tools make, character by character: the head lines, then one line for each of the
      registry rows, in the order of the alphabet. */
  lemma RegistryFileText(specText: string, templates: map<string, string>, listing: seq<(string, string)>,
                         resultsText: string, pluginHead: string, stdHead: string)
    ensures var results, spec := ReadTable(resultsText).rows, ReadTable(specText).rows;
      var registry := RegistryFrom(specText, templates, listing, resultsText, pluginHead, stdHead);
      registry.Success? ==>
        && Keyed(results) && RegistryRows(results, spec, listing).Success?
        && Holds(registry.value, RegistryRows(results, spec, listing).value, pluginHead, stdHead)
  {
    if RegistryFrom(specText, templates, listing, resultsText, pluginHead, stdHead).Success? {
      var results, spec := ReadTable(resultsText).rows, ReadTable(specText).rows;
      var manifest := ReadTable(TableText(MANIFEST_COLUMNS, WrittenLines(spec, MANIFEST_COLUMNS).0)).rows;
      RegistryTables(specText, templates, listing, resultsText, pluginHead, stdHead);
      ManifestStage(results, specText);
      TablesHold(results, manifest, spec, listing, pluginHead, stdHead);
    }
  }

  // ----- two rows of one symbol -----

  lemma DifferLater(p: string, a: string, b: string, i: nat)
    requires i <= |a| && i <= |b| && DifferAt(a, b, i)
    ensures DifferAt(p + a, p + b, |p| + i)
  {
    assert (p + a)[..|p| + i] == p + a[..i] && (p + b)[..|p| + i] == p + b[..i];
  }

  lemma DifferLonger(a: string, b: string, c: string, d: string, i: nat)
    requires i < |a| && i < |b| && DifferAt(a, b, i)
    ensures DifferAt(a + c, b + d, i)
  {
    assert (a + c)[..i] == a[..i] && (b + d)[..i] == b[..i];
  }

  lemma RowLineOpens(row: Row) returns (rest: string)
    requires HasColumns(row, REGISTRY_COLUMNS) && "symbol" in row && "class" in row
    ensures Text(row) == (row["symbol"] + "\t") + (row["class"] + rest)
  {
    TextIsRowLine(row);
    rest := "\t" + row["text"] + "\t" + row["sab"] + "\t" + row["signature"] + "\t" + row["probe_id"] + "\t" + row["note"];
  }

  /** Of two visible rows of a symbol, `lookup` never answers from the one whose class comes later in the alphabet. */
  lemma LaterClass(rows: seq<Row>, first: Row, second: Row, i: nat)
    requires HasColumns(first, REGISTRY_COLUMNS) && HasColumns(second, REGISTRY_COLUMNS)
    requires "symbol" in first && "symbol" in second && "class" in first && "class" in second
    requires first in rows && Visible(first) && first["symbol"] == second["symbol"]
    requires i < |first["class"]| && i < |second["class"]|
    requires first["class"][..i] == second["class"][..i] && first["class"][i] < second["class"][i]
    ensures !IsLeast(rows, second)
  {
    var r := RowLineOpens(first);
    var s := RowLineOpens(second);
    var p, a, b := first["symbol"] + "\t", first["class"] + r, second["class"] + s;
    DifferLonger(first["class"], second["class"], r, s, i);
    DifferLater(p, a, b, i);
    var n := |p| + i;
    assert (p + a)[n] == first["class"][i] && (p + b)[n] == second["class"][i];
    assert Precedes(Text(first), Text(second)) && Text(first) != Text(second);
    if Precedes(Text(second), Text(first)) {
      BelowMeaning(Text(first), Text(second));
      BelowMeaning(Text(second), Text(first));
      BelowAntisymmetric(Text(first), Text(second));
    }
  }
}
