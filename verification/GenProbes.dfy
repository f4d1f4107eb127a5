/** tools/sab_audit/gen_probes.py: the symbol spec becomes probe programs, a manifest and the declared plane. */
module GenProbes {
  import opened Strings
  import opened Ordering
  import opened Tsv
  import opened DeclaredNames
  import opened ProbePrograms

  const MANIFEST_COLUMNS: seq<string> := ["probe_id", "symbol", "class", "note"]
  const REGISTRY_COLUMNS: seq<string> := ["symbol", "class", "text", "sab", "signature", "probe_id", "note"]

  // ----- probe files -----

  function FileName(pid: string): string {
    pid + ".sla"
  }

  /** The directory after every `.sla` file has been unlinked. */
  function Cleared(files: map<string, string>): map<string, string> {
    map name | name in files && !EndsWith(name, ".sla") :: files[name]
  }

  datatype ProbeRun = ProbeRun(files: map<string, string>, seen: set<string>, error: Option<Error>)

  /** The generator's loop over the spec, from any point of it. */
  function WriteProbes(rows: seq<Row>, templates: map<string, string>, seen: set<string>, files: map<string, string>): ProbeRun {
    if rows == [] then ProbeRun(files, seen, None)
    else if "probe_id" !in rows[0] then ProbeRun(files, seen, Some(MissingColumn("probe_id")))
    else
      var pid := rows[0]["probe_id"];
      if pid in seen then WriteProbes(rows[1..], templates, seen, files)
      else match Instantiate(rows[0], templates)
        case Failure(error) => ProbeRun(files, seen, Some(error))
        case Success(text) => WriteProbes(rows[1..], templates, seen + {pid}, files[FileName(pid) := text])
  }

  lemma FileNameInjective(p: string, q: string)
    requires FileName(p) == FileName(q)
    ensures p == q
  {
    assert p == FileName(p)[..|FileName(p)| - 4];
    assert q == FileName(q)[..|FileName(q)| - 4];
  }

  ghost predicate Named(rows: seq<Row>) {
    forall row :: row in rows ==> "probe_id" in row
  }

  ghost predicate FirstWith(rows: seq<Row>, i: nat, pid: string) {
    && i < |rows| && "probe_id" in rows[i] && rows[i]["probe_id"] == pid
    && forall j :: 0 <= j < i ==> "probe_id" in rows[j] && rows[j]["probe_id"] != pid
  }

  lemma {:induction false} WriteProbesEffect(rows: seq<Row>, templates: map<string, string>, seen: set<string>, files: map<string, string>)
    requires WriteProbes(rows, templates, seen, files).error == None
    ensures Named(rows)
    ensures var after := WriteProbes(rows, templates, seen, files);
      && (forall pid :: pid in after.seen <==> pid in seen || exists row :: row in rows && row["probe_id"] == pid)
      && (forall i: nat, pid :: FirstWith(rows, i, pid) && pid !in seen ==>
            pid + ".sla" in after.files && ProgramOf(rows[i], templates, after.files[pid + ".sla"]))
      && (forall name :: (forall pid :: pid in after.seen && pid !in seen ==> name != FileName(pid)) ==>
            && (name in after.files <==> name in files)
            && (name in files ==> after.files[name] == files[name]))
  {
    if rows != [] {
      var pid := rows[0]["probe_id"];
      var after := WriteProbes(rows, templates, seen, files);
      assert rows == [rows[0]] + rows[1..];
      var (seen', files') := if pid in seen then (seen, files) else (seen + {pid}, files[FileName(pid) := Instantiate(rows[0], templates).value]);
      WriteProbesEffect(rows[1..], templates, seen', files');
      forall i: nat, q | FirstWith(rows, i, q) && q !in seen
        ensures q + ".sla" in after.files && ProgramOf(rows[i], templates, after.files[q + ".sla"])
      {
        if i == 0 {
          InstantiateExact(rows[0], templates, Instantiate(rows[0], templates).value);
          forall p | p in after.seen && p !in seen' ensures FileName(q) != FileName(p) {
            if FileName(q) == FileName(p) {
              FileNameInjective(q, p);
            }
          }
        } else {
          assert FirstWith(rows[1..], i - 1, q);
        }
      }
    }
  }

  /** Generated files are all `.sla` files, so the next run starts from the same cleared directory. */
  lemma {:induction false} WriteProbesCleared(rows: seq<Row>, templates: map<string, string>, seen: set<string>, files: map<string, string>)
    ensures Cleared(WriteProbes(rows, templates, seen, files).files) == Cleared(files)
  {
    if rows != [] && "probe_id" in rows[0] {
      var pid := rows[0]["probe_id"];
      if pid in seen {
        WriteProbesCleared(rows[1..], templates, seen, files);
      } else if Instantiate(rows[0], templates).Success? {
        var text := Instantiate(rows[0], templates).value;
        WriteProbesCleared(rows[1..], templates, seen + {pid}, files[FileName(pid) := text]);
        assert EndsWith(FileName(pid), ".sla");
        assert Cleared(files[FileName(pid) := text]) == Cleared(files);
      }
    }
  }

  /** After a run, the `.sla` files are exactly the probe ids of the spec, each instantiated from the first row
      that names it, and no other file has been touched. */
  lemma ProbeDirectory(spec: seq<Row>, templates: map<string, string>, before: map<string, string>)
    requires WriteProbes(spec, templates, {}, Cleared(before)).error == None
    ensures Named(spec)
    ensures var after := WriteProbes(spec, templates, {}, Cleared(before)).files;
      && (forall name :: name in after && EndsWith(name, ".sla") <==>
            exists row :: row in spec && name == row["probe_id"] + ".sla")
      && (forall i: nat, pid :: FirstWith(spec, i, pid) ==>
            pid + ".sla" in after && ProgramOf(spec[i], templates, after[pid + ".sla"]))
      && (forall name :: !EndsWith(name, ".sla") ==>
            (name in after <==> name in before) && (name in before ==> after[name] == before[name]))
  {
    WriteProbesEffect(spec, templates, {}, Cleared(before));
    var run := WriteProbes(spec, templates, {}, Cleared(before));
    forall name ensures name in run.files && EndsWith(name, ".sla") <==>
      exists row :: row in spec && name == row["probe_id"] + ".sla"
    {
      if row :| row in spec && name == row["probe_id"] + ".sla" {
        var i := FirstIndex(spec, row["probe_id"]);
        assert EndsWith(FileName(row["probe_id"]), ".sla");
      }
      if name in run.files && EndsWith(name, ".sla") && forall pid :: pid in run.seen ==> name != FileName(pid) {
        assert false;
      }
    }
    forall name | !EndsWith(name, ".sla")
      ensures (name in run.files <==> name in before) && (name in before ==> run.files[name] == before[name])
    {
      forall pid | pid in run.seen ensures name != FileName(pid) {
        assert EndsWith(FileName(pid), ".sla");
      }
    }
  }

  lemma {:induction false} FirstIndex(rows: seq<Row>, pid: string) returns (i: nat)
    requires Named(rows) && exists row :: row in rows && row["probe_id"] == pid
    ensures FirstWith(rows, i, pid)
  {
    if rows[0]["probe_id"] == pid {
      i := 0;
    } else {
      assert rows == [rows[0]] + rows[1..];
      i := FirstIndex(rows[1..], pid);
      i := i + 1;
    }
  }

  /** Whatever `.sla` files were there before, a second run over the same spec changes nothing. */
  lemma SecondRunChangesNothing(spec: seq<Row>, templates: map<string, string>, before: map<string, string>)
    ensures var first := WriteProbes(spec, templates, {}, Cleared(before));
      WriteProbes(spec, templates, {}, Cleared(first.files)) == first
  {
    WriteProbesCleared(spec, templates, {}, Cleared(before));
    assert Cleared(Cleared(before)) == Cleared(before);
  }

  // ----- the declared plane -----

  function Paired(name: Option<string>, file: string): seq<(string, string)> {
    match name case Some(n) => [(n, file)] case None => []
  }

  /** What the lines of a file declare, given how a name is found in a line. */
  function Pairs(find: string -> Option<string>, file: string): string -> seq<(string, string)> {
    line => Paired(find(line), file)
  }

  function LineDecls(lines: seq<string>, find: string -> Option<string>, file: string): seq<(string, string)> {
    FlatMap(lines, Pairs(find, file))
  }

  /** What a file of the std surface declares. */
  function FileDecls(file: (string, string)): seq<(string, string)> {
    if EndsWith(file.0, ".sla") then LineDecls(FileLines(file.1), DeclaredName, file.0) else []
  }

  /** Every `(symbol, file)` of the std surface, in the order the files are visited. */
  function Declared(listing: seq<(string, string)>): seq<(string, string)> {
    FlatMap(listing, FileDecls)
  }

  lemma LineMembers(lines: seq<string>, find: string -> Option<string>, file: string, d: (string, string))
    ensures d in LineDecls(lines, find, file) <==> file == d.1 && exists l :: l in lines && find(l) == Some(d.0)
  {
    FlatMapMembers(lines, Pairs(find, file), d);
  }

  /** The file is an `.sla` file with a line that opens a function of that name. */
  ghost predicate Declares(file: (string, string), name: string) {
    EndsWith(file.0, ".sla") && exists l :: l in FileLines(file.1) && DeclaresOn(l, name)
  }

  /** A name and a file are declared exactly when the file is one of the surface that declares the name. */
  lemma DeclaredMembers(listing: seq<(string, string)>, d: (string, string))
    ensures d in Declared(listing) <==> exists f :: f in listing && f.0 == d.1 && Declares(f, d.0)
  {
    FlatMapMembers(listing, FileDecls, d);
    forall f | f in listing ensures d in FileDecls(f) <==> f.0 == d.1 && Declares(f, d.0) {
      LineMembers(FileLines(f.1), DeclaredName, f.0, d);
      forall l ensures DeclaredName(l) == Some(d.0) <==> DeclaresOn(l, d.0) {
        DeclaredExactly(l, d.0);
      }
    }
  }

  /** Every declared name is an identifier, of one of the files. */
  lemma DeclaredNamed(listing: seq<(string, string)>, d: (string, string))
    requires d in Declared(listing)
    ensures IsIdentifier(d.0) && exists f :: f in listing && f.0 == d.1
  {
    DeclaredMembers(listing, d);
    var f :| f in listing && f.0 == d.1 && Declares(f, d.0);
    var l :| l in FileLines(f.1) && DeclaresOn(l, d.0);
    DeclaredIsIdentifier(l, d.0);
  }

  /** `sorted(set(decl))` */
  function DeclPairs(listing: seq<(string, string)>): seq<(string, string)> {
    Sort(Dedup(Declared(listing)), PairBelow)
  }

  const NOTE_FRONT := "std .sla declaration plane (from "

  function DeclRow(symbol: string, file: string): Row {
    NotedRow(symbol, NOTE_FRONT + (file + ")"))
  }

  function NotedRow(symbol: string, note: string): Row {
    map["symbol" := symbol, "class" := "declared", "text" := "decl", "sab" := "decl", "signature" := "",
        "probe_id" := "", "note" := note]
  }

  function DeclRows(pairs: seq<(string, string)>): (rows: seq<Row>)
    ensures |rows| == |pairs|
    ensures forall i :: 0 <= i < |rows| ==> rows[i] == DeclRow(pairs[i].0, pairs[i].1)
    ensures forall row :: row in rows ==> HasColumns(row, REGISTRY_COLUMNS)
  {
    if pairs == [] then [] else [DeclRow(pairs[0].0, pairs[0].1)] + DeclRows(pairs[1..])
  }

  /** The declared plane does not depend on the order in which the files are visited. */
  lemma DeclaredPlaneOrderFree(listing: seq<(string, string)>, other: seq<(string, string)>)
    requires forall f :: f in listing <==> f in other
    ensures DeclPairs(listing) == DeclPairs(other)
  {
    PairBelowPreorder(Declared(listing));
    forall d ensures d in Declared(listing) <==> d in Declared(other) {
      DeclaredMembers(listing, d);
      DeclaredMembers(other, d);
    }
    SortedSetUnique(Declared(listing), Declared(other), PairBelow);
  }

  // ----- the run -----

  /** What one call of `main` leaves behind, and how it ended. */
  datatype GenRun = GenRun(probes: map<string, string>, manifest: string, declRows: string, outcome: Result<(nat, nat, nat)>)

  /** `main` as a function of the directory before it and its inputs. */
  function Generated(
      before: map<string, string>, manifest: string, declRows: string,
      specText: string, templates: map<string, string>, listing: seq<(string, string)>): GenRun
  {
    if NonBlankLines(specText) == [] then GenRun(before, manifest, declRows, Failure(EmptyTable))
    else
      var spec := ReadTable(specText).rows;
      var run := WriteProbes(spec, templates, {}, Cleared(before));
      if run.error.Some? then GenRun(run.files, manifest, declRows, Failure(run.error.value))
      else
        var (lines, error) := WrittenLines(spec, MANIFEST_COLUMNS);
        var newManifest := TableText(MANIFEST_COLUMNS, lines);
        if error.Some? then GenRun(run.files, newManifest, declRows, Failure(error.value))
        else
          var pairs := DeclPairs(listing);
          GenRun(run.files, newManifest, TableText(REGISTRY_COLUMNS, WrittenLines(DeclRows(pairs), REGISTRY_COLUMNS).0),
                 Success((|run.seen|, |spec|, |pairs|)))
  }

  /** The working directory of the audit tools: the probe directory and the two generated tables. */
  class AuditTree {
    var probes: map<string, string>
    var manifest: string
    var declRows: string

    method Clear()
      modifies this`probes
      ensures probes == Cleared(old(probes))
    {
      var names := probes.Keys;
      while names != {}
        invariant names <= old(probes).Keys
        invariant forall name :: name in probes <==> name in old(probes) && (name in names || !EndsWith(name, ".sla"))
        invariant forall name :: name in probes ==> probes[name] == old(probes)[name]
        decreases names
      {
        var name :| name in names;
        if EndsWith(name, ".sla") {
          probes := probes - {name};
        }
        names := names - {name};
      }
    }

    method FillProbes(spec: seq<Row>, templates: map<string, string>) returns (seen: set<string>, error: Option<Error>)
      modifies this`probes
      ensures ProbeRun(probes, seen, error) == WriteProbes(spec, templates, {}, old(probes))
    {
      seen := {};
      for i := 0 to |spec|
        invariant WriteProbes(spec[i..], templates, seen, probes) == WriteProbes(spec, templates, {}, old(probes))
      {
        var row := spec[i];
        assert spec[i..][0] == row && spec[i..][1..] == spec[i + 1..];
        if "probe_id" !in row {
          return seen, Some(MissingColumn("probe_id"));
        }
        var pid := row["probe_id"];
        if pid in seen {
          continue;
        }
        var text := Instantiate(row, templates);
        if text.Failure? {
          return seen, Some(text.error);
        }
        probes := probes[FileName(pid) := text.value];
        seen := seen + {pid};
      }
      return seen, None;
    }

    method ScanDeclarations(listing: seq<(string, string)>) returns (decl: seq<(string, string)>)
      ensures decl == Declared(listing)
    {
      decl := [];
      for i := 0 to |listing|
        invariant decl == FlatMap(listing[..i], FileDecls)
      {
        var (name, text) := listing[i];
        FlatMapSnoc(listing, i, FileDecls);
        if !EndsWith(name, ".sla") {
          continue;
        }
        var found := ScanLines(FileLines(text), DeclaredName, name);
        decl := decl + found;
      }
      assert listing[..|listing|] == listing;
    }

    method ScanLines(lines: seq<string>, find: string -> Option<string>, file: string) returns (decl: seq<(string, string)>)
      ensures decl == LineDecls(lines, find, file)
    {
      decl := [];
      for i := 0 to |lines|
        invariant decl == FlatMap(lines[..i], Pairs(find, file))
      {
        FlatMapSnoc(lines, i, Pairs(find, file));
        var m := find(lines[i]);
        if m.Some? {
          decl := decl + [(m.value, file)];
        }
      }
      assert lines[..|lines|] == lines;
    }

    /** `main` */
    method Generate(specText: string, templates: map<string, string>, listing: seq<(string, string)>)
      returns (outcome: Result<(nat, nat, nat)>)
      modifies this
      ensures GenRun(probes, manifest, declRows, outcome)
           == Generated(old(probes), old(manifest), old(declRows), specText, templates, listing)
    {
      if NonBlankLines(specText) == [] {
        return Failure(EmptyTable);
      }
      var table := ReadTsv(specText);
      var spec := table.rows;
      Clear();
      var seen, error := FillProbes(spec, templates);
      if error.Some? {
        return Failure(error.value);
      }
      manifest, error := WriteRows(MANIFEST_COLUMNS, spec);
      if error.Some? {
        return Failure(error.value);
      }
      var decl := ScanDeclarations(listing);
      var pairs := Sort(Dedup(decl), PairBelow);
      declRows, error := WriteRows(REGISTRY_COLUMNS, DeclRows(pairs));
      outcome := Success((|seen|, |spec|, |pairs|));
    }
  }
}
