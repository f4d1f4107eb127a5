/** tools/sab_audit/build_registry.py: manifest, probe results and declared plane become the registry. */
module BuildRegistry {
  import opened Strings
  import opened Ordering
  import opened Tsv
  import opened GenProbes

  // In pieces, short enough to reason about their characters.
  const BANNER := "# DEF-SAB-AUDIT registration " + "registry — GENERATED by " + "tools/sab_audit/regen.sh; " + "do not edit by hand."
  const PLUGIN_STAMP := "# plugin_head:"
  const STD_STAMP := "# sa_std_head:"

  // ----- the results index -----

  ghost predicate Keyed(results: seq<Row>) {
    forall r :: r in results ==> "probe_id" in r && "backend" in r
  }

  /** The last results row of a probe on a backend: a plain backward scan. */
  ghost function Pick(results: seq<Row>, pid: string, backend: string): (r: Option<Row>)
    requires Keyed(results)
  {
    if results == [] then None
    else
      var last := results[|results| - 1];
      if last["probe_id"] == pid && last["backend"] == backend then Some(last)
      else Pick(results[..|results| - 1], pid, backend)
  }

  /** `by_probe`: probe id, then backend, then the row. */
  type Index = map<string, map<string, Row>>

  function Per(index: Index, pid: string): map<string, Row> {
    if pid in index then index[pid] else map[]
  }

  function Cell(index: Index, pid: string, backend: string): Option<Row> {
    if backend in Per(index, pid) then Some(Per(index, pid)[backend]) else None
  }

  ghost predicate Refines(index: Index, results: seq<Row>)
    requires Keyed(results)
  {
    forall pid, backend :: Cell(index, pid, backend) == Pick(results, pid, backend)
  }

  /** `by_probe.setdefault(r["probe_id"], {})[r["backend"]] = r` */
  function Enter(index: Index, r: Row): Index
    requires "probe_id" in r && "backend" in r
  {
    index[r["probe_id"] := Per(index, r["probe_id"])[r["backend"] := r]]
  }

  function KeyError(results: seq<Row>): Option<Error> {
    if results == [] then None
    else if "probe_id" !in results[0] then Some(MissingColumn("probe_id"))
    else if "backend" !in results[0] then Some(MissingColumn("backend"))
    else KeyError(results[1..])
  }

  lemma {:induction false} NoKeyError(results: seq<Row>)
    ensures KeyError(results) == None <==> Keyed(results)
  {
    if results != [] {
      assert results == [results[0]] + results[1..];
      NoKeyError(results[1..]);
    }
  }

  lemma {:induction false} KeyErrorAt(results: seq<Row>, i: nat)
    requires i < |results| && Keyed(results[..i])
    requires !("probe_id" in results[i] && "backend" in results[i])
    ensures KeyError(results) == Some(MissingColumn(if "probe_id" !in results[i] then "probe_id" else "backend"))
  {
    if i > 0 {
      assert results[0] == results[..i][0];
      assert results[..i][1..] == results[1..][..i - 1];
      forall r | r in results[1..][..i - 1] ensures "probe_id" in r && "backend" in r {
        assert r in results[..i];
      }
      KeyErrorAt(results[1..], i - 1);
    }
  }

  /** The nested dictionary answers every question as the backward scan does. */
  method BuildIndex(results: seq<Row>) returns (index: Index, error: Option<Error>)
    ensures error == KeyError(results)
    ensures error == None ==> Keyed(results) && Refines(index, results)
  {
    index := map[];
    for i := 0 to |results|
      invariant Keyed(results[..i]) && Refines(index, results[..i])
    {
      var r := results[i];
      if "probe_id" !in r || "backend" !in r {
        KeyErrorAt(results, i);
        return index, Some(MissingColumn(if "probe_id" !in r then "probe_id" else "backend"));
      }
      assert results[..i + 1][..i] == results[..i];
      index := Enter(index, r);
    }
    assert results[..|results|] == results;
    NoKeyError(results);
    error := None;
  }

  // ----- verdicts -----

  /** What one backend contributes to a row: its status, and a signature unless it is fine. */
  datatype Verdict = Verdict(status: string, signatures: seq<string>)

  function Judge(backend: string, cell: Option<Row>): Result<Verdict> {
    match cell
    case None => Success(Verdict("checkfail", [backend + ":no-result"]))
    case Some(r) =>
      if "verdict" !in r then Failure(MissingColumn("verdict"))
      else if r["verdict"] == "ok" then Success(Verdict("ok", []))
      else if "phase" !in r then Failure(MissingColumn("phase"))
      else if "signature" !in r then Failure(MissingColumn("signature"))
      else if r["phase"] == "check" then
        Success(Verdict("checkfail", [backend + ":check:" + r["signature"]]))
      else
        Success(Verdict("fail", [backend + ":" + r["phase"] + ":" + r["signature"]]))
  }

  /** The registry row of a manifest row, given what each backend has to say about its probe. */
  function Joined(row: Row, text: Verdict, sab: Verdict): Result<Row>
    requires "probe_id" in row
  {
    if !HasColumns(row, ["symbol", "class", "note"]) then
      Failure(MissingColumn(FirstMissing(row, ["symbol", "class", "note"])))
    else
      assert forall c :: c in ["symbol", "class", "note"] ==> c in row;
      assert "symbol" in ["symbol", "class", "note"] && "class" in ["symbol", "class", "note"]
          && "note" in ["symbol", "class", "note"];
      Success(map["symbol" := row["symbol"], "class" := row["class"], "text" := text.status, "sab" := sab.status,
                  "signature" := Join("; ", text.signatures + sab.signatures),
                  "probe_id" := row["probe_id"], "note" := row["note"]])
  }

  const BACKENDS: seq<string> := ["text", "sab"]

  ghost function Judged(results: seq<Row>, pid: string, backend: string): Result<Verdict>
    requires Keyed(results)
  {
    Judge(backend, Pick(results, pid, backend))
  }

  ghost function Probed(results: seq<Row>, row: Row): (joined: Result<Row>)
    requires Keyed(results)
    ensures joined.Success? ==> HasColumns(joined.value, REGISTRY_COLUMNS)
  {
    if "probe_id" !in row then Failure(MissingColumn("probe_id"))
    else
      var text :- Judged(results, row["probe_id"], BACKENDS[0]);
      var sab :- Judged(results, row["probe_id"], BACKENDS[1]);
      Joined(row, text, sab)
  }

  /** All values, or the first error. */
  function Sequence<T>(outcomes: seq<Result<T>>): Result<seq<T>> {
    if outcomes == [] then Success([])
    else
      var head :- outcomes[0];
      var tail :- Sequence(outcomes[1..]);
      Success([head] + tail)
  }

  lemma {:induction false} SequenceAt<T>(outcomes: seq<Result<T>>)
    requires Sequence(outcomes).Success?
    ensures |Sequence(outcomes).value| == |outcomes|
    ensures forall i :: 0 <= i < |outcomes| ==> outcomes[i] == Success(Sequence(outcomes).value[i])
  {
    if outcomes != [] {
      SequenceAt(outcomes[1..]);
    }
  }

  lemma {:induction false} SequenceSplit<T>(a: seq<Result<T>>, b: seq<Result<T>>)
    requires Sequence(a).Success?
    ensures Sequence(b).Success? ==> Sequence(a + b) == Success(Sequence(a).value + Sequence(b).value)
    ensures Sequence(b).Failure? ==> Sequence(a + b) == Failure(Sequence(b).error)
  {
    if a == [] {
      assert a + b == b;
      if Sequence(b).Success? {
        assert Sequence(a).value + Sequence(b).value == Sequence(b).value;
      }
    } else {
      assert (a + b)[1..] == a[1..] + b && (a + b)[0] == a[0];
      SequenceSplit(a[1..], b);
      if Sequence(b).Success? {
        assert Sequence(a + b).value == [a[0].value] + (Sequence(a[1..]).value + Sequence(b).value);
        assert Sequence(a + b).value == Sequence(a).value + Sequence(b).value;
      }
    }
  }

  lemma SequenceStep<T>(outcomes: seq<Result<T>>, i: nat)
    requires i < |outcomes| && Sequence(outcomes[..i]).Success?
    ensures outcomes[i].Failure? ==> Sequence(outcomes) == Failure(outcomes[i].error)
    ensures outcomes[i].Success? ==>
      Sequence(outcomes[..i + 1]) == Success(Sequence(outcomes[..i]).value + [outcomes[i].value])
  {
    if outcomes[i].Failure? {
      assert outcomes == outcomes[..i] + outcomes[i..];
      SequenceSplit(outcomes[..i], outcomes[i..]);
    } else {
      var last := [outcomes[i]];
      assert outcomes[..i + 1] == outcomes[..i] + last;
      assert Sequence(last[1..]) == Success([]);
      SequenceSplit(outcomes[..i], last);
      assert Sequence(last).value == [outcomes[i].value];
    }
  }

  ghost function ProbedEach(results: seq<Row>, manifest: seq<Row>): (outcomes: seq<Result<Row>>)
    requires Keyed(results)
  {
    seq(|manifest|, i requires 0 <= i < |manifest| => Probed(results, manifest[i]))
  }

  /** The registry rows of the manifest, in its order, or the first error. */
  ghost function ProbedAll(results: seq<Row>, manifest: seq<Row>): (rows: Result<seq<Row>>)
    requires Keyed(results)
    ensures rows.Success? ==> |rows.value| == |manifest|
    ensures rows.Success? ==> forall i :: 0 <= i < |manifest| ==> Probed(results, manifest[i]) == Success(rows.value[i])
    ensures rows.Success? ==> forall row :: row in rows.value ==> HasColumns(row, REGISTRY_COLUMNS)
  {
    var rows := Sequence(ProbedEach(results, manifest));
    assert rows.Success? ==>
        |rows.value| == |manifest|
        && forall i :: 0 <= i < |manifest| ==> ProbedEach(results, manifest)[i] == Success(rows.value[i]) by {
      if rows.Success? {
        SequenceAt(ProbedEach(results, manifest));
      }
    }
    rows
  }

  // ----- the registry -----

  function Stamps(pluginHead: string, stdHead: string): seq<string> {
    [BANNER, PLUGIN_STAMP + " " + pluginHead, STD_STAMP + " " + stdHead, Join("\t", REGISTRY_COLUMNS)]
  }

  /** The body lines before sorting: manifest rows joined with their verdicts, then the declared rows. */
  ghost function Body(results: seq<Row>, manifest: seq<Row>, declRows: seq<Row>): Result<seq<string>> {
    if KeyError(results).Some? then Failure(KeyError(results).value)
    else
      NoKeyError(results);
      var probed :- ProbedAll(results, manifest);
      var (declared, error) := WrittenLines(declRows, REGISTRY_COLUMNS);
      if error.Some? then Failure(error.value)
      else Success(WrittenLines(probed, REGISTRY_COLUMNS).0 + declared)
  }

  /** Head lines, then the body in sorted order. */
  function RegistryText(body: seq<string>, pluginHead: string, stdHead: string): string {
    Join("\n", Stamps(pluginHead, stdHead) + Sort(body, Below)) + "\n"
  }

  ghost function RegistryOf(results: seq<Row>, manifest: seq<Row>, declRows: seq<Row>, pluginHead: string, stdHead: string): Result<string> {
    var body :- Body(results, manifest, declRows);
    Success(RegistryText(body, pluginHead, stdHead))
  }

  ghost function Registry(resultsText: Option<string>, manifestText: string, declText: string, pluginHead: string, stdHead: string): Result<string> {
    if resultsText == None then Failure(MissingResults)
    else RegistryOf(ReadTable(resultsText.value).rows, ReadTable(manifestText).rows, ReadTable(declText).rows, pluginHead, stdHead)
  }

  /** The body of the loop over the manifest. */
  method JoinRow(index: Index, row: Row, ghost results: seq<Row>) returns (joined: Result<Row>)
    requires Keyed(results) && Refines(index, results)
    ensures joined == Probed(results, row)
  {
    if "probe_id" !in row {
      return Failure(MissingColumn("probe_id"));
    }
    var pid := row["probe_id"];
    var verdicts: seq<Verdict> := [];
    for i := 0 to |BACKENDS|
      invariant |verdicts| == i
      invariant forall j :: 0 <= j < i ==> Judged(results, pid, BACKENDS[j]) == Success(verdicts[j])
    {
      assert Cell(index, pid, BACKENDS[i]) == Pick(results, pid, BACKENDS[i]);
      var verdict := Judge(BACKENDS[i], Cell(index, pid, BACKENDS[i]));
      if verdict.Failure? {
        return Failure(verdict.error);
      }
      verdicts := verdicts + [verdict.value];
    }
    joined := Joined(row, verdicts[0], verdicts[1]);
  }

  method JoinManifest(index: Index, manifest: seq<Row>, ghost results: seq<Row>) returns (body: seq<string>, error: Option<Error>)
    requires Keyed(results) && Refines(index, results)
    ensures error.Some? ==> ProbedAll(results, manifest) == Failure(error.value)
    ensures error.None? ==> ProbedAll(results, manifest).Success?
    ensures error.None? ==> body == WrittenLines(ProbedAll(results, manifest).value, REGISTRY_COLUMNS).0
  {
    body := [];
    ghost var outcomes := ProbedEach(results, manifest);
    ghost var rows: seq<Row> := [];
    for i := 0 to |manifest|
      invariant Sequence(outcomes[..i]) == Success(rows)
      invariant forall row :: row in rows ==> HasColumns(row, REGISTRY_COLUMNS)
      invariant body == WrittenLines(rows, REGISTRY_COLUMNS).0
    {
      var joined := JoinRow(index, manifest[i], results);
      SequenceStep(outcomes, i);
      if joined.Failure? {
        return body, Some(joined.error);
      }
      WrittenLinesSnoc(rows, joined.value, REGISTRY_COLUMNS);
      body := body + [Line(joined.value, REGISTRY_COLUMNS)];
      rows := rows + [joined.value];
    }
    assert outcomes[..|manifest|] == outcomes;
    error := None;
  }

  lemma {:induction false} WrittenLinesAppend(a: seq<Row>, b: seq<Row>, columns: seq<string>)
    requires forall row :: row in a ==> HasColumns(row, columns)
    ensures WrittenLines(a + b, columns).0 == WrittenLines(a, columns).0 + WrittenLines(b, columns).0
    ensures WrittenLines(a, columns).1 == None
    ensures WrittenLines(a + b, columns).1 == WrittenLines(b, columns).1
  {
    if a == [] {
      assert a + b == b;
    } else {
      assert a[0] in a;
      assert (a + b)[1..] == a[1..] + b;
      WrittenLinesAppend(a[1..], b, columns);
    }
  }

  lemma WrittenLinesSnoc(a: seq<Row>, row: Row, columns: seq<string>)
    requires forall r :: r in a ==> HasColumns(r, columns)
    requires HasColumns(row, columns)
    ensures WrittenLines(a + [row], columns).0 == WrittenLines(a, columns).0 + [Line(row, columns)]
  {
    WrittenLinesAppend(a, [row], columns);
    assert WrittenLines([row], columns).0 == [Line(row, columns)];
  }

  method DeclaredLines(rows: seq<Row>) returns (lines: seq<string>, error: Option<Error>)
    ensures error == WrittenLines(rows, REGISTRY_COLUMNS).1
    ensures error.None? ==> lines == WrittenLines(rows, REGISTRY_COLUMNS).0
  {
    lines := [];
    for i := 0 to |rows|
      invariant forall row :: row in rows[..i] ==> HasColumns(row, REGISTRY_COLUMNS)
      invariant lines == WrittenLines(rows[..i], REGISTRY_COLUMNS).0
    {
      if !HasColumns(rows[i], REGISTRY_COLUMNS) {
        assert rows == rows[..i] + rows[i..];
        WrittenLinesAppend(rows[..i], rows[i..], REGISTRY_COLUMNS);
        return lines, Some(MissingColumn(FirstMissing(rows[i], REGISTRY_COLUMNS)));
      }
      assert rows[..i + 1] == rows[..i] + [rows[i]];
      WrittenLinesSnoc(rows[..i], rows[i], REGISTRY_COLUMNS);
      lines := lines + [Line(rows[i], REGISTRY_COLUMNS)];
    }
    assert rows[..|rows|] == rows && rows + [] == rows;
    WrittenLinesAppend(rows, [], REGISTRY_COLUMNS);
    error := None;
  }

  /** `main` */
  method Build(resultsText: Option<string>, manifestText: string, declText: string, pluginHead: string, stdHead: string)
    returns (registry: Result<string>)
    ensures registry == Registry(resultsText, manifestText, declText, pluginHead, stdHead)
  {
    if resultsText == None {
      return Failure(MissingResults);
    }
    var results := ReadTsv(resultsText.value);
    var manifest := ReadTsv(manifestText);
    var declRows := ReadTsv(declText);
    var index, error := BuildIndex(results.rows);
    if error.Some? {
      return Failure(error.value);
    }
    var body, declared: seq<string>;
    body, error := JoinManifest(index, manifest.rows, results.rows);
    if error.Some? {
      return Failure(error.value);
    }
    declared, error := DeclaredLines(declRows.rows);
    if error.Some? {
      return Failure(error.value);
    }
    var lines := Stamps(pluginHead, stdHead);
    body := Sort(body + declared, Below);
    lines := lines + body;
    registry := Success(Join("\n", lines) + "\n");
  }
}
