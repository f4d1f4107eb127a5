/** What the registry builder promises: reproducible bytes, statuses from a fixed set, shared verdicts. */
module RegistryFacts {
  import opened Strings
  import opened Ordering
  import opened Tsv
  import opened GenProbes
  import opened BuildRegistry

  // ----- which results rows matter -----

  /** No two different rows speak for the same probe and backend. */
  ghost predicate Consistent(results: seq<Row>)
    requires Keyed(results)
  {
    forall r, s | r in results && s in results ::
      r["probe_id"] == s["probe_id"] && r["backend"] == s["backend"] ==> r == s
  }

  ghost predicate Speaks(r: Row, pid: string, backend: string)
    requires "probe_id" in r && "backend" in r
  {
    r["probe_id"] == pid && r["backend"] == backend
  }

  lemma {:induction false} PickIsLast(results: seq<Row>, pid: string, backend: string)
    requires Keyed(results)
    ensures Pick(results, pid, backend).None? ==>
      forall r :: r in results ==> !Speaks(r, pid, backend)
    ensures Pick(results, pid, backend).Some? ==>
      exists i :: && 0 <= i < |results| && results[i] == Pick(results, pid, backend).value && Speaks(results[i], pid, backend)
                  && forall j :: i < j < |results| ==> !Speaks(results[j], pid, backend)
  {
    if results != [] {
      var n := |results| - 1;
      var last := results[n];
      assert results == results[..n] + [last];
      if last["probe_id"] == pid && last["backend"] == backend {
      } else {
        PickIsLast(results[..n], pid, backend);
      }
    }
  }

  /** Two results tables that agree on the last row of every probed cell give the same registry. */
  lemma OnlyCellsMatter(results: seq<Row>, other: seq<Row>, manifest: seq<Row>)
    requires Keyed(results) && Keyed(other)
    requires forall row, b :: row in manifest && "probe_id" in row && b in BACKENDS ==>
      Pick(results, row["probe_id"], b) == Pick(other, row["probe_id"], b)
    ensures ProbedEach(results, manifest) == ProbedEach(other, manifest)
  {
    forall i | 0 <= i < |manifest| ensures Probed(results, manifest[i]) == Probed(other, manifest[i]) {
      var row := manifest[i];
      assert row in manifest;
      if "probe_id" in row {
        assert BACKENDS[0] in BACKENDS && BACKENDS[1] in BACKENDS;
      }
    }
  }

  ghost predicate Relevant(manifest: seq<Row>, r: Row) {
    && "probe_id" in r && "backend" in r
    && r["backend"] in BACKENDS
    && exists row :: row in manifest && "probe_id" in row && row["probe_id"] == r["probe_id"]
  }

  lemma {:induction false} PickFilter(results: seq<Row>, keep: Row -> bool, pid: string, backend: string)
    requires Keyed(results)
    requires forall r :: r in results && r["probe_id"] == pid && r["backend"] == backend ==> keep(r)
    ensures Keyed(Filter(results, keep))
    ensures Pick(Filter(results, keep), pid, backend) == Pick(results, pid, backend)
  {
    if results != [] {
      var n := |results| - 1;
      var last := results[n];
      assert results == results[..n] + [last];
      FilterAppend(results[..n], [last], keep);
      PickFilter(results[..n], keep, pid, backend);
      var kept := Filter(results[..n], keep);
      if keep(last) {
        assert Filter(results, keep) == kept + [last];
        assert (kept + [last])[..|kept|] == kept;
      } else {
        assert Filter(results, keep) == kept + [] == kept;
      }
    }
  }

  /** Results of probes outside the manifest, or of backends other than text and sab, leave no trace. */
  lemma StrayResultsIgnored(results: seq<Row>, keep: Row -> bool, manifest: seq<Row>, declRows: seq<Row>)
    requires Keyed(results)
    requires forall r :: r in results && Relevant(manifest, r) ==> keep(r)
    ensures Body(Filter(results, keep), manifest, declRows) == Body(results, manifest, declRows)
  {
    var kept := Filter(results, keep);
    assert Keyed(kept);
    NoKeyError(results);
    NoKeyError(kept);
    forall row, b | row in manifest && "probe_id" in row && b in BACKENDS
      ensures Pick(kept, row["probe_id"], b) == Pick(results, row["probe_id"], b)
    {
      forall r | r in results && r["probe_id"] == row["probe_id"] && r["backend"] == b ensures keep(r) {
        assert Relevant(manifest, r);
      }
      PickFilter(results, keep, row["probe_id"], b);
    }
    OnlyCellsMatter(kept, results, manifest);
  }

  // ----- byte reproducibility -----

  ghost function Map<T, U>(xs: seq<T>, f: T -> U): seq<U> {
    if xs == [] then [] else [f(xs[0])] + Map(xs[1..], f)
  }

  lemma {:induction false} MapAppend<T, U>(a: seq<T>, b: seq<T>, f: T -> U)
    ensures Map(a + b, f) == Map(a, f) + Map(b, f)
  {
    if a == [] {
      assert a + b == b;
    } else {
      assert (a + b)[1..] == a[1..] + b;
      MapAppend(a[1..], b, f);
    }
  }

  lemma {:induction false} MapPermutation<T, U>(xs: seq<T>, ys: seq<T>, f: T -> U)
    requires multiset(xs) == multiset(ys)
    ensures multiset(Map(xs, f)) == multiset(Map(ys, f))
  {
    if xs == [] {
      assert |multiset(ys)| == 0;
    } else {
      assert xs[0] in multiset(ys);
      var j :| 0 <= j < |ys| && ys[j] == xs[0];
      Without(xs, 0);
      Without(ys, j);
      assert xs[..0] + xs[1..] == xs[1..];
      MapPermutation(xs[1..], ys[..j] + ys[j + 1..], f);
      MapWithout(ys, j, f);
    }
  }

  lemma MapWithout<T, U>(ys: seq<T>, j: nat, f: T -> U)
    requires j < |ys|
    ensures multiset(Map(ys, f)) == multiset{f(ys[j])} + multiset(Map(ys[..j] + ys[j + 1..], f))
  {
    MapAppend(ys[..j], ys[j + 1..], f);
    MapAppend(ys[..j], ys[j..], f);
    MapFrom(ys, j, f);
    OneMore(Map(ys[..j], f), f(ys[j]), Map(ys[j + 1..], f));
  }

  lemma MapFrom<T, U>(ys: seq<T>, j: nat, f: T -> U)
    requires j < |ys|
    ensures ys == ys[..j] + ys[j..] && Map(ys[j..], f) == [f(ys[j])] + Map(ys[j + 1..], f)
  {
    assert ys[j..][1..] == ys[j + 1..] && ys[j..][0] == ys[j];
  }

  lemma OneMore<U>(a: seq<U>, x: U, b: seq<U>)
    ensures multiset(a + ([x] + b)) == multiset{x} + multiset(a + b)
  {
  }

  /** The body line of a manifest row; what it is for a row in error does not matter. */
  ghost function BodyLine(results: seq<Row>): Row -> string
    requires Keyed(results)
  {
    (row: Row) => match Probed(results, row)
      case Success(joined) => Line(joined, REGISTRY_COLUMNS)
      case Failure(_) => ""
  }

  lemma {:induction false} BodyIsMap(results: seq<Row>, manifest: seq<Row>)
    requires Keyed(results) && ProbedAll(results, manifest).Success?
    ensures WrittenLines(ProbedAll(results, manifest).value, REGISTRY_COLUMNS).0 == Map(manifest, BodyLine(results))
  {
    var rows := ProbedAll(results, manifest).value;
    if manifest != [] {
      var outcomes := ProbedEach(results, manifest);
      assert outcomes[1..] == ProbedEach(results, manifest[1..]);
      BodyIsMap(results, manifest[1..]);
      assert outcomes[0] == Probed(results, manifest[0]);
      assert rows[1..] == ProbedAll(results, manifest[1..]).value;
      assert rows[0] in rows;
    }
  }

  lemma {:induction false} SequenceSucceeds<T>(outcomes: seq<Result<T>>)
    ensures Sequence(outcomes).Success? <==> forall i :: 0 <= i < |outcomes| ==> outcomes[i].Success?
  {
    if outcomes != [] {
      SequenceSucceeds(outcomes[1..]);
      if forall i :: 0 <= i < |outcomes| ==> outcomes[i].Success? {
        forall i | 0 <= i < |outcomes[1..]| ensures outcomes[1..][i].Success? {
          assert outcomes[i + 1].Success?;
        }
      } else {
        var i :| 0 <= i < |outcomes| && !outcomes[i].Success?;
        if i > 0 {
          assert !outcomes[1..][i - 1].Success?;
        }
      }
    }
  }

  lemma ProbedAllSucceeds(results: seq<Row>, manifest: seq<Row>)
    requires Keyed(results)
    ensures ProbedAll(results, manifest).Success? <==> forall row :: row in manifest ==> Probed(results, row).Success?
  {
    var outcomes := ProbedEach(results, manifest);
    SequenceSucceeds(outcomes);
    if forall row :: row in manifest ==> Probed(results, row).Success? {
      forall i | 0 <= i < |outcomes| ensures outcomes[i].Success? {
        assert manifest[i] in manifest;
      }
    }
    if Sequence(outcomes).Success? {
      forall row | row in manifest ensures Probed(results, row).Success? {
        var i :| 0 <= i < |manifest| && manifest[i] == row;
        assert outcomes[i].Success?;
      }
    }
  }

  lemma {:induction false} WrittenSucceeds(rows: seq<Row>, columns: seq<string>)
    ensures WrittenLines(rows, columns).1 == None <==> forall row :: row in rows ==> HasColumns(row, columns)
  {
    if rows != [] {
      WrittenSucceeds(rows[1..], columns);
      assert rows == [rows[0]] + rows[1..];
    }
  }

  ghost function LineOrEmpty(columns: seq<string>): Row -> string {
    (row: Row) => if HasColumns(row, columns) then Line(row, columns) else ""
  }

  lemma {:induction false} WrittenIsMap(rows: seq<Row>, columns: seq<string>)
    requires forall row :: row in rows ==> HasColumns(row, columns)
    ensures WrittenLines(rows, columns).0 == Map(rows, LineOrEmpty(columns))
  {
    if rows != [] {
      WrittenIsMap(rows[1..], columns);
    }
  }

  lemma SameMembers<T>(xs: seq<T>, ys: seq<T>)
    requires multiset(xs) == multiset(ys)
    ensures forall x :: x in xs <==> x in ys
  {
    forall x ensures x in xs <==> x in ys {
      assert x in multiset(xs) <==> x in multiset(ys);
    }
  }

  /** The bytes of the registry do not depend on the order of the manifest, of the declared rows, or of results
      that speak with one voice for every probe and backend. */
  lemma ByteReproducible(
      results: seq<Row>, manifest: seq<Row>, declRows: seq<Row>,
      results': seq<Row>, manifest': seq<Row>, declRows': seq<Row>, pluginHead: string, stdHead: string)
    requires multiset(results) == multiset(results')
    requires multiset(manifest) == multiset(manifest')
    requires multiset(declRows) == multiset(declRows')
    requires Keyed(results) ==> Consistent(results)
    requires RegistryOf(results, manifest, declRows, pluginHead, stdHead).Success?
    ensures RegistryOf(results', manifest', declRows', pluginHead, stdHead)
         == RegistryOf(results, manifest, declRows, pluginHead, stdHead)
  {
    SameMembers(results, results');
    SameMembers(manifest, manifest');
    SameMembers(declRows, declRows');
    NoKeyError(results);
    NoKeyError(results');
    forall pid, b ensures Pick(results, pid, b) == Pick(results', pid, b) {
      PickIsLast(results, pid, b);
      PickIsLast(results', pid, b);
    }
    SameBody(results, results', manifest, manifest');
    SameDeclared(declRows, declRows');
    SameText(Body(results, manifest, declRows).value, Body(results', manifest', declRows').value, pluginHead, stdHead);
  }

  lemma SameText(body: seq<string>, body': seq<string>, pluginHead: string, stdHead: string)
    requires multiset(body) == multiset(body')
    ensures RegistryText(body', pluginHead, stdHead) == RegistryText(body, pluginHead, stdHead)
  {
    BelowPreorder(body);
    SortPermutation(body, body', Below);
  }

  lemma SameDeclared(declRows: seq<Row>, declRows': seq<Row>)
    requires multiset(declRows) == multiset(declRows')
    requires WrittenLines(declRows, REGISTRY_COLUMNS).1 == None
    ensures WrittenLines(declRows', REGISTRY_COLUMNS).1 == None
    ensures multiset(WrittenLines(declRows', REGISTRY_COLUMNS).0) == multiset(WrittenLines(declRows, REGISTRY_COLUMNS).0)
  {
    SameMembers(declRows, declRows');
    WrittenSucceeds(declRows, REGISTRY_COLUMNS);
    WrittenSucceeds(declRows', REGISTRY_COLUMNS);
    WrittenIsMap(declRows, REGISTRY_COLUMNS);
    WrittenIsMap(declRows', REGISTRY_COLUMNS);
    MapPermutation(declRows, declRows', LineOrEmpty(REGISTRY_COLUMNS));
  }

  lemma SameBody(results: seq<Row>, results': seq<Row>, manifest: seq<Row>, manifest': seq<Row>)
    requires Keyed(results) && Keyed(results')
    requires forall pid, b :: Pick(results, pid, b) == Pick(results', pid, b)
    requires multiset(manifest) == multiset(manifest')
    requires ProbedAll(results, manifest).Success?
    ensures ProbedAll(results', manifest').Success?
    ensures multiset(WrittenLines(ProbedAll(results', manifest').value, REGISTRY_COLUMNS).0)
         == multiset(WrittenLines(ProbedAll(results, manifest).value, REGISTRY_COLUMNS).0)
  {
    OnlyCellsMatter(results, results', manifest);
    SameMembers(manifest, manifest');
    ProbedAllSucceeds(results', manifest);
    ProbedAllSucceeds(results', manifest');
    BodyIsMap(results', manifest);
    BodyIsMap(results', manifest');
    MapPermutation(manifest, manifest', BodyLine(results'));
  }

  // ----- statuses and signatures -----

  const PROBED_STATUSES := {"ok", "fail", "checkfail"}

  lemma {:induction false} JoinEmpty(sep: string, parts: seq<string>)
    requires forall p :: p in parts ==> p != ""
    ensures Join(sep, parts) == "" <==> parts == []
  {
    if parts != [] {
      assert parts[0] in parts;
    }
  }

  /** The segments that a backend adds to the signature. */
  ghost predicate Signs(status: string, backend: string, segments: seq<string>) {
    && (status == "ok" <==> segments == [])
    && (status != "ok" ==> |segments| == 1 && backend + ":" <= segments[0] && segments[0] != "")
  }

  /** A manifest row keeps its own columns. A probed status is never `decl`; the signature is empty exactly when both
      backends are fine, and otherwise has one segment for each backend that is not, text first. */
  lemma ProbedRow(results: seq<Row>, row: Row)
    requires Keyed(results) && Probed(results, row).Success?
    ensures var joined := Probed(results, row).value;
      && joined["symbol"] == row["symbol"] && joined["class"] == row["class"]
      && joined["probe_id"] == row["probe_id"] && joined["note"] == row["note"]
      && joined["text"] in PROBED_STATUSES && joined["sab"] in PROBED_STATUSES
      && (joined["signature"] == "" <==> joined["text"] == "ok" && joined["sab"] == "ok")
      && exists text, sab :: joined["signature"] == Join("; ", text + sab)
                             && Signs(joined["text"], "text", text) && Signs(joined["sab"], "sab", sab)
  {
    var pid := row["probe_id"];
    Segments("text", Pick(results, pid, "text"));
    Segments("sab", Pick(results, pid, "sab"));
    JoinedRow(row, Judged(results, pid, BACKENDS[0]).value, Judged(results, pid, BACKENDS[1]).value);
  }

  lemma JoinedRow(row: Row, text: Verdict, sab: Verdict)
    requires "probe_id" in row && Joined(row, text, sab).Success?
    requires Signs(text.status, "text", text.signatures) && Signs(sab.status, "sab", sab.signatures)
    ensures var joined := Joined(row, text, sab).value;
      && joined["text"] == text.status && joined["sab"] == sab.status
      && (joined["signature"] == "" <==> joined["text"] == "ok" && joined["sab"] == "ok")
      && joined["signature"] == Join("; ", text.signatures + sab.signatures)
  {
    JoinEmpty("; ", text.signatures + sab.signatures);
  }

  /** A backend is fine when its last result says so. Otherwise it failed in the checker, which both backends share
      and which a missing result is charged to, or later; the one segment it gets names the backend, the phase and the evidence. */
  lemma Segments(backend: string, cell: Option<Row>)
    requires Judge(backend, cell).Success?
    ensures var v := Judge(backend, cell).value;
      && v.status in PROBED_STATUSES
      && (v.status == "ok" <==> cell.Some? && cell.value["verdict"] == "ok")
      && (v.status == "checkfail" <==> cell == None || (cell.value["verdict"] != "ok" && cell.value["phase"] == "check"))
      && (v.status != "ok" && cell.Some? ==>
            v.signatures[0] == backend + ":" + (cell.value["phase"] + (":" + cell.value["signature"])))
      && (cell == None ==> v.signatures[0] == backend + ":no-result")
      && Signs(v.status, backend, v.signatures)
  {
    var v := Judge(backend, cell).value;
    if v.status != "ok" {
      assert v.signatures[0][..|backend| + 1] == backend + ":";
      if cell.Some? {
        Assoc(backend + ":", cell.value["phase"], ":" + cell.value["signature"]);
        Assoc(backend + ":" + cell.value["phase"], ":", cell.value["signature"]);
        Assoc(backend + ":", "check:", cell.value["signature"]);
        Assoc("check", ":", cell.value["signature"]);
      }
    }
  }

  /** The columns that a verdict is read from, in the order in which they are. */
  ghost function Evidence(r: Row): seq<string> {
    if "verdict" in r && r["verdict"] == "ok" then ["verdict"] else ["verdict", "phase", "signature"]
  }

  /** A result stops the builder exactly when it lacks a column that its verdict is read from, and at the first of them. */
  lemma JudgeStops(backend: string, cell: Option<Row>, error: Error)
    ensures Judge(backend, cell) == Failure(error) <==>
      cell.Some? && error.MissingColumn? && StopsAt(cell.value, Evidence(cell.value), error.column)
  {
    if cell.Some? {
      var columns := Evidence(cell.value);
      assert columns[0] == "verdict";
      assert |columns| > 1 ==> columns[1] == "phase" && columns[2] == "signature";
    }
  }

  /** What stops the builder at a manifest row: a missing probe id, then either result, text first, then a missing column
      of the row itself. */
  lemma ProbedStops(results: seq<Row>, row: Row, error: Error)
    requires Keyed(results)
    ensures Probed(results, row) == Failure(error) <==>
      if "probe_id" !in row then error == MissingColumn("probe_id")
      else
        var text := Judge("text", Pick(results, row["probe_id"], "text"));
        var sab := Judge("sab", Pick(results, row["probe_id"], "sab"));
        if text.Failure? then error == text.error
        else if sab.Failure? then error == sab.error
        else error.MissingColumn? && StopsAt(row, ["symbol", "class", "note"], error.column)
  {
    if "probe_id" in row && error.MissingColumn? && !HasColumns(row, ["symbol", "class", "note"]) {
      FirstMissingExact(row, ["symbol", "class", "note"], error.column);
    }
  }

  lemma SameProbe(results: seq<Row>, row: Row, other: Row)
    requires Keyed(results) && Probed(results, row).Success? && Probed(results, other).Success?
    requires row["probe_id"] == other["probe_id"]
    ensures var a, b := Probed(results, row).value, Probed(results, other).value;
      && a["probe_id"] == row["probe_id"] && b["probe_id"] == other["probe_id"]
      && a["text"] == b["text"] && a["sab"] == b["sab"] && a["signature"] == b["signature"]
  {
  }

  lemma ProbedColumns(results: seq<Row>, row: Row)
    requires Keyed(results) && Probed(results, row).Success?
    ensures var a := Probed(results, row).value;
      "probe_id" in a && "text" in a && "sab" in a && "signature" in a && a["probe_id"] == row["probe_id"]
  {
  }

  /** Rows that share a probe share its verdict. */
  lemma SharedProbe(results: seq<Row>, manifest: seq<Row>, a: Row, b: Row)
    requires Keyed(results) && ProbedAll(results, manifest).Success?
    requires a in ProbedAll(results, manifest).value && b in ProbedAll(results, manifest).value
    ensures "probe_id" in a && "text" in a && "sab" in a && "signature" in a
    ensures "probe_id" in b && "text" in b && "sab" in b && "signature" in b
    ensures a["probe_id"] == b["probe_id"] ==>
      a["text"] == b["text"] && a["sab"] == b["sab"] && a["signature"] == b["signature"]
  {
    var rows := ProbedAll(results, manifest).value;
    var i :| 0 <= i < |rows| && rows[i] == a;
    var j :| 0 <= j < |rows| && rows[j] == b;
    ProbedColumns(results, manifest[i]);
    ProbedColumns(results, manifest[j]);
    if a["probe_id"] == b["probe_id"] {
      SameProbe(results, manifest[i], manifest[j]);
    }
  }
}
