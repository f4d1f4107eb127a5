/** The promise of the whole pipeline: what `lookup` answers, in terms of the spec, the results and the std surface. */
module EndToEnd {
  import opened Strings
  import opened Patterns
  import opened Tsv
  import opened ProbePrograms
  import opened GenProbes
  import opened BuildRegistry
  import opened RegistryFacts
  import opened RegistryFile
  import opened Pipeline
  import opened SurfaceNames

  /** The spec rows that the manifest carries: those that are not blank in all four of its columns. */
  predicate Carried(row: Row) {
    HasColumns(row, MANIFEST_COLUMNS) && !AllBlank(row, MANIFEST_COLUMNS)
  }

  /** The rows that the inputs call for: one for each carried spec row, joined with its results, and one for each
      declared name and file. */
  ghost function DirectRows(results: seq<Row>, spec: seq<Row>, listing: seq<(string, string)>): Result<seq<Row>>
    requires Keyed(results)
  {
    var probed :- ProbedAll(results, Filter(spec, Carried));
    Success(probed + ReceivedRows(DeclPairs(listing)))
  }

  /** Those rows, and the stray ones that names of std files bring with them. */
  ghost function RegistryRows(results: seq<Row>, spec: seq<Row>, listing: seq<(string, string)>): Result<seq<Row>>
    requires Keyed(results)
  {
    var probed :- ProbedAll(results, Filter(spec, Carried));
    Success(probed + SurfaceRows(DeclPairs(listing)))
  }

  // ----- the manifest -----

  lemma ManifestColumns()
    ensures Distinct(MANIFEST_COLUMNS) && |MANIFEST_COLUMNS| == 4
    ensures forall c :: c in MANIFEST_COLUMNS ==> ColumnName(c)
  {
    assert ColumnName("probe_id") && ColumnName("symbol") && ColumnName("class") && ColumnName("note");
  }

  lemma InManifest(row: Row)
    requires HasColumns(row, MANIFEST_COLUMNS)
    ensures "probe_id" in row && "symbol" in row && "class" in row && "note" in row
    ensures var p := Project(row, MANIFEST_COLUMNS);
      && "probe_id" in p && "symbol" in p && "class" in p && "note" in p
      && p["probe_id"] == row["probe_id"] && p["symbol"] == row["symbol"] && p["class"] == row["class"] && p["note"] == row["note"]
  {
    assert MANIFEST_COLUMNS[0] == "probe_id" && MANIFEST_COLUMNS[1] == "symbol"
        && MANIFEST_COLUMNS[2] == "class" && MANIFEST_COLUMNS[3] == "note";
  }

  lemma SameJoined(a: Row, b: Row, text: Verdict, sab: Verdict)
    requires "probe_id" in a && "symbol" in a && "class" in a && "note" in a
    requires "probe_id" in b && "symbol" in b && "class" in b && "note" in b
    requires a["probe_id"] == b["probe_id"] && a["symbol"] == b["symbol"] && a["class"] == b["class"] && a["note"] == b["note"]
    ensures Joined(a, text, sab) == Joined(b, text, sab)
  {
  }

  /** Writing the manifest loses nothing that the registry needs. */
  lemma ProjectedProbe(results: seq<Row>, row: Row)
    requires Keyed(results) && HasColumns(row, MANIFEST_COLUMNS)
    ensures Probed(results, Project(row, MANIFEST_COLUMNS)) == Probed(results, row)
  {
    InManifest(row);
    var p := Project(row, MANIFEST_COLUMNS);
    var text, sab := Judged(results, row["probe_id"], BACKENDS[0]), Judged(results, row["probe_id"], BACKENDS[1]);
    if text.Success? && sab.Success? {
      SameJoined(p, row, text.value, sab.value);
    }
  }

  lemma {:induction false} SurvivorsAreCarried(results: seq<Row>, spec: seq<Row>)
    requires Keyed(results) && Writable(spec, MANIFEST_COLUMNS)
    ensures ProbedEach(results, Survivors(spec, MANIFEST_COLUMNS)) == ProbedEach(results, Filter(spec, Carried))
  {
    if spec != [] {
      assert spec[0] in spec;
      SurvivorsAreCarried(results, spec[1..]);
      var survivors, carried := Survivors(spec[1..], MANIFEST_COLUMNS), Filter(spec[1..], Carried);
      if !AllBlank(spec[0], MANIFEST_COLUMNS) {
        var p := Project(spec[0], MANIFEST_COLUMNS);
        ProjectedProbe(results, spec[0]);
        EachCons(results, p, survivors);
        EachCons(results, spec[0], carried);
      }
    }
  }

  lemma EachCons(results: seq<Row>, row: Row, rows: seq<Row>)
    requires Keyed(results)
    ensures ProbedEach(results, [row] + rows) == [Probed(results, row)] + ProbedEach(results, rows)
  {
  }

  /** The builder's manifest rows stand for the carried spec rows. */
  lemma ManifestStage(results: seq<Row>, specText: string)
    ensures var spec := ReadTable(specText).rows;
      var (lines, error) := WrittenLines(spec, MANIFEST_COLUMNS);
      error == None && Keyed(results) ==>
        ProbedAll(results, ReadTable(TableText(MANIFEST_COLUMNS, lines)).rows) == ProbedAll(results, Filter(spec, Carried))
  {
    var spec := ReadTable(specText).rows;
    if WrittenLines(spec, MANIFEST_COLUMNS).1 == None && Keyed(results) {
      ReadTableFields(specText);
      WrittenSucceeds(spec, MANIFEST_COLUMNS);
      ManifestColumns();
      assert MANIFEST_COLUMNS[0] in MANIFEST_COLUMNS;
      NotBlank(MANIFEST_COLUMNS[0]);
      StageRoundTrip(MANIFEST_COLUMNS, spec);
      SurvivorsAreCarried(results, spec);
    }
  }

  /** The rows are the manifest columns of the carried ones, in order. */
  ghost predicate Lists(rows: seq<Row>, carried: seq<Row>) {
    && |rows| == |carried|
    && forall i :: 0 <= i < |rows| ==> HasColumns(carried[i], MANIFEST_COLUMNS) && rows[i] == Project(carried[i], MANIFEST_COLUMNS)
  }

  lemma {:induction false} SurvivorsInOrder(spec: seq<Row>)
    requires Writable(spec, MANIFEST_COLUMNS)
    ensures Lists(Survivors(spec, MANIFEST_COLUMNS), Filter(spec, Carried))
  {
    if spec != [] {
      assert spec[0] in spec;
      SurvivorsInOrder(spec[1..]);
      if Carried(spec[0]) {
        InOrderCons(Project(spec[0], MANIFEST_COLUMNS), Survivors(spec[1..], MANIFEST_COLUMNS), spec[0], Filter(spec[1..], Carried));
      }
    }
  }

  lemma InOrderCons(r: Row, rows: seq<Row>, c: Row, carried: seq<Row>)
    requires Lists(rows, carried) && HasColumns(c, MANIFEST_COLUMNS) && r == Project(c, MANIFEST_COLUMNS)
    ensures Lists([r] + rows, [c] + carried)
  {
  }

  /** The program of a probe id: the template of the first spec row with that id. */
  ghost predicate HasProbe(spec: seq<Row>, templates: map<string, string>, probes: map<string, string>, pid: string) {
    && pid + ".sla" in probes
    && exists i: nat :: FirstWith(spec, i, pid) && ProgramOf(spec[i], templates, probes[pid + ".sla"])
  }

  lemma SpecHasProbes(spec: seq<Row>, templates: map<string, string>, before: map<string, string>, row: Row)
    requires WriteProbes(spec, templates, {}, Cleared(before)).error == None
    requires row in spec && "probe_id" in row
    ensures HasProbe(spec, templates, WriteProbes(spec, templates, {}, Cleared(before)).files, row["probe_id"])
  {
    ProbeDirectory(spec, templates, before);
    var i := FirstIndex(spec, row["probe_id"]);
    assert FirstWith(spec, i, row["probe_id"]);
  }

  lemma ManifestInOrder(spec: seq<Row>)
    requires Writable(spec, MANIFEST_COLUMNS)
    ensures Lists(ReadTable(TableText(MANIFEST_COLUMNS, WrittenLines(spec, MANIFEST_COLUMNS).0)).rows, Filter(spec, Carried))
  {
    ManifestColumns();
    assert MANIFEST_COLUMNS[0] in MANIFEST_COLUMNS;
    NotBlank(MANIFEST_COLUMNS[0]);
    StageRoundTrip(MANIFEST_COLUMNS, spec);
    SurvivorsInOrder(spec);
  }

  /** After a run, the manifest reads back as the carried spec rows, in spec order, and every probe id in it has its
      generated program. */
  lemma ManifestHasItsProbes(
      before: map<string, string>, manifest: string, declRows: string, specText: string, templates: map<string, string>,
      listing: seq<(string, string)>)
    ensures var run := Generated(before, manifest, declRows, specText, templates, listing);
      var spec := ReadTable(specText).rows;
      var rows := ReadTable(run.manifest).rows;
      run.outcome.Success? ==>
        && Lists(rows, Filter(spec, Carried))
        && (forall row :: row in rows ==> "probe_id" in row && HasProbe(spec, templates, run.probes, row["probe_id"]))
  {
    var run := Generated(before, manifest, declRows, specText, templates, listing);
    if run.outcome.Success? {
      var spec := ReadTable(specText).rows;
      ReadTableFields(specText);
      WrittenSucceeds(spec, MANIFEST_COLUMNS);
      ManifestInOrder(spec);
      CarriedHaveProbes(spec, ReadTable(run.manifest).rows, templates, before);
    }
  }

  lemma CarriedHaveProbes(spec: seq<Row>, rows: seq<Row>, templates: map<string, string>, before: map<string, string>)
    requires WriteProbes(spec, templates, {}, Cleared(before)).error == None
    requires Lists(rows, Filter(spec, Carried))
    ensures var probes := WriteProbes(spec, templates, {}, Cleared(before)).files;
      forall row :: row in rows ==> "probe_id" in row && HasProbe(spec, templates, probes, row["probe_id"])
  {
    var probes := WriteProbes(spec, templates, {}, Cleared(before)).files;
    var carried := Filter(spec, Carried);
    forall row | row in rows ensures "probe_id" in row && HasProbe(spec, templates, probes, row["probe_id"]) {
      var k :| 0 <= k < |rows| && rows[k] == row;
      assert carried[k] in carried;
      InManifest(carried[k]);
      SpecHasProbes(spec, templates, before, carried[k]);
    }
  }

  // ----- the generator -----

  /** What a spec row needs to be instantiated. */
  ghost predicate Instantiable(row: Row, templates: map<string, string>) {
    && "template" in row && row["template"] in templates
    && (!Lacks(templates[row["template"]], "{{BODY}}") ==> "body" in row)
  }

  lemma {:induction false} ProbesSucceed(rows: seq<Row>, templates: map<string, string>, seen: set<string>, files: map<string, string>)
    requires Named(rows)
    requires forall i: nat, pid :: FirstWith(rows, i, pid) && pid !in seen ==> Instantiable(rows[i], templates)
    ensures WriteProbes(rows, templates, seen, files).error == None
  {
    if rows != [] {
      var pid := rows[0]["probe_id"];
      assert rows == [rows[0]] + rows[1..];
      var seen' := seen + {pid};
      forall i: nat, q | FirstWith(rows[1..], i, q) && q !in seen' ensures Instantiable(rows[1..][i], templates) {
        assert FirstWith(rows, i + 1, q);
      }
      if pid in seen {
        assert seen' == seen;
        ProbesSucceed(rows[1..], templates, seen, files);
      } else {
        assert FirstWith(rows, 0, pid);
        ContainsMeaning(templates[rows[0]["template"]], "{{BODY}}");
        ProbesSucceed(rows[1..], templates, seen', files[FileName(pid) := Instantiate(rows[0], templates).value]);
      }
    }
  }

  /** What the probe loop asks of the spec. */
  ghost predicate AllInstantiable(spec: seq<Row>, templates: map<string, string>) {
    forall i: nat, pid :: FirstWith(spec, i, pid) ==> Instantiable(spec[i], templates)
  }

  lemma ProbesExactly(spec: seq<Row>, templates: map<string, string>, files: map<string, string>)
    requires Named(spec)
    ensures WriteProbes(spec, templates, {}, files).error == None <==> AllInstantiable(spec, templates)
  {
    if WriteProbes(spec, templates, {}, files).error == None {
      WriteProbesEffect(spec, templates, {}, files);
    }
    if AllInstantiable(spec, templates) {
      ProbesSucceed(spec, templates, {}, files);
    }
  }

  lemma ProbesNeedNames(spec: seq<Row>, templates: map<string, string>, files: map<string, string>)
    ensures WriteProbes(spec, templates, {}, files).error == None ==> Named(spec)
  {
    if WriteProbes(spec, templates, {}, files).error == None {
      WriteProbesEffect(spec, templates, {}, files);
    }
  }

  lemma ManifestNames(spec: seq<Row>)
    requires forall row :: row in spec ==> HasColumns(row, MANIFEST_COLUMNS)
    ensures Named(spec)
  {
    assert MANIFEST_COLUMNS[0] in MANIFEST_COLUMNS;
  }

  /** The generator succeeds exactly when the spec has a line, its rows have the columns of the manifest, and the first
      row of each probe id can be instantiated. */
  lemma GeneratorSucceeds(
      before: map<string, string>, manifest: string, declRows: string, specText: string, templates: map<string, string>,
      listing: seq<(string, string)>)
    ensures var spec := ReadTable(specText).rows;
      Generated(before, manifest, declRows, specText, templates, listing).outcome.Success? <==>
        && NonBlankLines(specText) != []
        && (forall row :: row in spec ==> HasColumns(row, MANIFEST_COLUMNS))
        && AllInstantiable(spec, templates)
  {
    var spec := ReadTable(specText).rows;
    WrittenSucceeds(spec, MANIFEST_COLUMNS);
    ProbesNeedNames(spec, templates, Cleared(before));
    if forall row :: row in spec ==> HasColumns(row, MANIFEST_COLUMNS) {
      ManifestNames(spec);
      ProbesExactly(spec, templates, Cleared(before));
    }
  }

  // ----- the whole -----

  lemma BodyCons(line: string, row: Row, lines: seq<string>, rows: seq<Row>)
    requires IsBody(lines, rows) && line == Text(row)
    ensures IsBody([line] + lines, [row] + rows)
  {
  }

  lemma {:induction false} LinesAreBody(rows: seq<Row>)
    requires forall row :: row in rows ==> HasColumns(row, REGISTRY_COLUMNS)
    ensures WrittenLines(rows, REGISTRY_COLUMNS).1 == None
    ensures IsBody(WrittenLines(rows, REGISTRY_COLUMNS).0, rows)
  {
    if rows != [] {
      assert rows[0] in rows;
      LinesAreBody(rows[1..]);
      BodyCons(Line(rows[0], REGISTRY_COLUMNS), rows[0], WrittenLines(rows[1..], REGISTRY_COLUMNS).0, rows[1..]);
      assert [rows[0]] + rows[1..] == rows;
    }
  }

  lemma BodyAppend(a: seq<string>, b: seq<string>, rows: seq<Row>, more: seq<Row>)
    requires IsBody(a, rows) && IsBody(b, more)
    ensures IsBody(a + b, rows + more)
  {
  }

  lemma SurfaceColumns(listing: seq<(string, string)>)
    ensures forall row :: row in SurfaceRows(DeclPairs(listing)) ==> Shaped(row) && HasColumns(row, REGISTRY_COLUMNS)
  {
    PairsNamed(listing);
    SurfaceShaped(DeclPairs(listing));
  }

  /** The builder succeeds exactly when the registry rows exist, and its body then holds their lines. */
  lemma BuilderIsDirect(results: seq<Row>, manifest: seq<Row>, spec: seq<Row>, listing: seq<(string, string)>)
    requires Keyed(results) ==> ProbedAll(results, manifest) == ProbedAll(results, Filter(spec, Carried))
    ensures var body := Body(results, manifest, SurfaceRows(DeclPairs(listing)));
      && (body.Success? <==> Keyed(results) && RegistryRows(results, spec, listing).Success?)
      && (body.Success? ==> IsBody(body.value, RegistryRows(results, spec, listing).value))
  {
    NoKeyError(results);
    if Keyed(results) && ProbedAll(results, manifest).Success? {
      var probed, surface := ProbedAll(results, manifest).value, SurfaceRows(DeclPairs(listing));
      SurfaceColumns(listing);
      LinesAreBody(probed);
      LinesAreBody(surface);
      BodyAppend(WrittenLines(probed, REGISTRY_COLUMNS).0, WrittenLines(surface, REGISTRY_COLUMNS).0, probed, surface);
    }
  }

  lemma ProbedRowsSound(results: seq<Row>, spec: seq<Row>)
    requires Keyed(results) && ProbedAll(results, Filter(spec, Carried)).Success?
    requires forall r :: r in results || r in spec ==> FieldRow(r)
    ensures forall row :: row in ProbedAll(results, Filter(spec, Carried)).value ==> Sound(row)
  {
    var carried := Filter(spec, Carried);
    var probed := ProbedAll(results, carried).value;
    forall row | row in probed ensures Sound(row) {
      var i :| 0 <= i < |probed| && probed[i] == row;
      assert carried[i] in carried;
      ProbedSound(results, carried[i]);
    }
  }

  lemma RegistryRowsShaped(results: seq<Row>, spec: seq<Row>, listing: seq<(string, string)>)
    requires Keyed(results) && RegistryRows(results, spec, listing).Success?
    requires forall r :: r in results || r in spec ==> FieldRow(r)
    ensures forall row :: row in RegistryRows(results, spec, listing).value ==> Shaped(row)
  {
    ProbedRowsSound(results, spec);
    SurfaceColumns(listing);
  }

  /** The builder succeeds exactly when the registry rows exist, and the emitter is then faithful to them. */
  ghost predicate Delivers(registry: Result<string>, results: seq<Row>, spec: seq<Row>, listing: seq<(string, string)>,
                           pluginHead: string, stdHead: string) {
    && (registry.Success? <==> Keyed(results) && RegistryRows(results, spec, listing).Success?)
    && (registry.Success? ==> Faithful(registry.value, RegistryRows(results, spec, listing).value, pluginHead, stdHead))
  }

  lemma FromTables(results: seq<Row>, manifest: seq<Row>, specText: string, resultsText: string,
                   listing: seq<(string, string)>, pluginHead: string, stdHead: string)
    requires results == ReadTable(resultsText).rows
    requires Keyed(results) ==> ProbedAll(results, manifest) == ProbedAll(results, Filter(ReadTable(specText).rows, Carried))
    ensures Delivers(RegistryOf(results, manifest, SurfaceRows(DeclPairs(listing)), pluginHead, stdHead),
                     results, ReadTable(specText).rows, listing, pluginHead, stdHead)
  {
    var spec := ReadTable(specText).rows;
    BuilderIsDirect(results, manifest, spec, listing);
    var body := Body(results, manifest, SurfaceRows(DeclPairs(listing)));
    if body.Success? {
      ReadTableFields(resultsText);
      ReadTableFields(specText);
      RegistryRowsShaped(results, spec, listing);
      RegistryAnswers(RegistryRows(results, spec, listing).value, body.value, pluginHead, stdHead);
    }
  }

  /** The two tables that a successful run of the generator leaves behind. */
  lemma GeneratedTables(
      before: map<string, string>, manifest: string, declRows: string, specText: string, templates: map<string, string>,
      listing: seq<(string, string)>)
    ensures var run := Generated(before, manifest, declRows, specText, templates, listing);
      var (lines, error) := WrittenLines(ReadTable(specText).rows, MANIFEST_COLUMNS);
      run.outcome.Success? ==>
        && error == None && run.manifest == TableText(MANIFEST_COLUMNS, lines)
        && run.declRows == TableText(REGISTRY_COLUMNS, WrittenLines(DeclRows(DeclPairs(listing)), REGISTRY_COLUMNS).0)
  {
  }

  /** What the first two tools make of the inputs. */
  ghost function RegistryFrom(specText: string, templates: map<string, string>, listing: seq<(string, string)>,
                              resultsText: string, pluginHead: string, stdHead: string): Result<string> {
    var run := Generated(map[], "", "", specText, templates, listing);
    if run.outcome.Failure? then Failure(run.outcome.error)
    else Registry(Some(resultsText), run.manifest, run.declRows, pluginHead, stdHead)
  }

  /** What was in the directory before makes no difference to the registry. */
  lemma RegistryOfAnyRun(
      before: map<string, string>, manifest: string, declRows: string, specText: string, templates: map<string, string>,
      listing: seq<(string, string)>, resultsText: string, pluginHead: string, stdHead: string)
    ensures var run := Generated(before, manifest, declRows, specText, templates, listing);
      && (run.outcome.Success? <==> Generated(map[], "", "", specText, templates, listing).outcome.Success?)
      && (run.outcome.Success? ==>
            RegistryFrom(specText, templates, listing, resultsText, pluginHead, stdHead)
            == Registry(Some(resultsText), run.manifest, run.declRows, pluginHead, stdHead))
  {
    GeneratorSucceeds(before, manifest, declRows, specText, templates, listing);
    GeneratorSucceeds(map[], "", "", specText, templates, listing);
  }

  /** The builder works on the manifest as written and on the declared plane as it can be read. */
  lemma RegistryTables(specText: string, templates: map<string, string>, listing: seq<(string, string)>,
                       resultsText: string, pluginHead: string, stdHead: string)
    ensures var (lines, error) := WrittenLines(ReadTable(specText).rows, MANIFEST_COLUMNS);
      Generated(map[], "", "", specText, templates, listing).outcome.Success? ==>
        && error == None
        && RegistryFrom(specText, templates, listing, resultsText, pluginHead, stdHead)
           == RegistryOf(ReadTable(resultsText).rows, ReadTable(TableText(MANIFEST_COLUMNS, lines)).rows,
                         SurfaceRows(DeclPairs(listing)), pluginHead, stdHead)
  {
    GeneratedTables(map[], "", "", specText, templates, listing);
    DeclaredStage(listing);
  }

  /** Through all three tools and every file between them, from any spec, probe results, std surface and heads: once the
      generator has succeeded, the builder succeeds exactly when the registry rows exist, and the emitter is faithful to
      them. */
  lemma LookupIsDirect(specText: string, templates: map<string, string>, listing: seq<(string, string)>,
                       resultsText: string, pluginHead: string, stdHead: string)
    ensures var results, spec := ReadTable(resultsText).rows, ReadTable(specText).rows;
      Generated(map[], "", "", specText, templates, listing).outcome.Success? ==>
        Delivers(RegistryFrom(specText, templates, listing, resultsText, pluginHead, stdHead),
                 results, spec, listing, pluginHead, stdHead)
  {
    if Generated(map[], "", "", specText, templates, listing).outcome.Success? {
      var results, spec := ReadTable(resultsText).rows, ReadTable(specText).rows;
      var manifest := ReadTable(TableText(MANIFEST_COLUMNS, WrittenLines(spec, MANIFEST_COLUMNS).0)).rows;
      RegistryTables(specText, templates, listing, resultsText, pluginHead, stdHead);
      ManifestStage(results, specText);
      FromTables(results, manifest, specText, resultsText, listing, pluginHead, stdHead);
    }
  }
}
