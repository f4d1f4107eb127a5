/** src/sab_audit.zig: what the compiler makes of the emitted lookup for the symbols a checked program uses. */
module SabAudit {
  import opened Strings
  import opened Ordering
  import opened Tsv
  import opened GenProbes
  import opened BuildRegistry
  import opened RegistryFacts
  import opened EmitRegistry
  import opened ZigTable
  import opened Pipeline
  import opened SurfaceNames
  import opened EndToEnd
  import opened Promises

  datatype Backend = TextMirror | Sab

  datatype Severity = Hard | Mirror | Unprobed

  datatype Finding = Finding(symbol: string, class_: string, backend: Option<Backend>, severity: Severity, signature: string)

  datatype Targets = Targets(text: bool, sab: bool)

  const PRODUCTION := Targets(false, true)

  datatype Use = Use(symbol: string, class_: string)

  function StatusOn(e: Entry, backend: Backend): Status {
    if backend == TextMirror then e.text else e.sab
  }

  function Targeted(targets: Targets, backend: Backend): bool {
    if backend == TextMirror then targets.text else targets.sab
  }

  /** What one backend of an entry contributes. */
  function BackendFindings(use: Use, e: Entry, backend: Backend, targets: Targets, lenient: bool): seq<Finding> {
    match StatusOn(e, backend)
    case Ok => []
    case Fail =>
      [Finding(use.symbol, use.class_, Some(backend), if Targeted(targets, backend) then Hard else Mirror,
               if lenient then "lenient:" + e.signature else e.signature)]
    case CheckFail =>
      [Finding(use.symbol, use.class_, Some(backend), Unprobed, "registry verdict is checker-rejected in probe shape")]
    case Decl =>
      [Finding(use.symbol, use.class_, Some(backend), Unprobed, "registry verdict is declaration-plane")]
  }

  /** `findingsFor` */
  function FindingsFor(zig: ZigModule, use: Use, targets: Targets, lenient: bool): seq<Finding> {
    match Ask(zig, use.symbol)
    case None =>
      [Finding(use.symbol, use.class_, None, Unprobed, if lenient then "lenient:no registry entry" else "no registry entry")]
    case Some(e) =>
      BackendFindings(use, e, TextMirror, targets, lenient) + BackendFindings(use, e, Sab, targets, lenient)
  }

  /** The findings of all uses, in their order. */
  function Findings(zig: ZigModule, uses: seq<Use>, targets: Targets, lenient: bool): seq<Finding> {
    if uses == [] then []
    else FindingsFor(zig, uses[0], targets, lenient) + Findings(zig, uses[1..], targets, lenient)
  }

  lemma {:induction false} FindingsAppend(zig: ZigModule, a: seq<Use>, b: seq<Use>, targets: Targets, lenient: bool)
    ensures Findings(zig, a + b, targets, lenient)
         == Findings(zig, a, targets, lenient) + Findings(zig, b, targets, lenient)
  {
    if a == [] {
      assert a + b == b;
    } else {
      assert (a + b)[1..] == a[1..] + b;
      FindingsAppend(zig, a[1..], b, targets, lenient);
    }
  }

  /** `symbolUseLessThan`, or equal */
  predicate UseBelow(a: Use, b: Use) {
    Below(a.symbol, b.symbol)
  }

  function Rank(backend: Option<Backend>): nat {
    match backend case None => 255 case Some(TextMirror) => 0 case Some(Sab) => 1
  }

  /** `findingLessThan`, or equal */
  predicate FindingBelow(a: Finding, b: Finding) {
    if a.symbol == b.symbol then Rank(a.backend) <= Rank(b.backend) else Below(a.symbol, b.symbol)
  }

  /** `run`, from the uses in the order in which the hash map yields them. */
  method RunAudit(zig: ZigModule, uses: seq<Use>, targets: Targets, lenient: bool)
    returns (sorted: seq<Use>, findings: seq<Finding>)
    ensures sorted == Sort(uses, UseBelow)
    ensures findings == Sort(Findings(zig, sorted, targets, lenient), FindingBelow)
  {
    sorted := Sort(uses, UseBelow);
    findings := [];
    for i := 0 to |sorted|
      invariant findings == Findings(zig, sorted[..i], targets, lenient)
    {
      assert sorted[..i + 1] == sorted[..i] + [sorted[i]];
      FindingsAppend(zig, sorted[..i], [sorted[i]], targets, lenient);
      findings := findings + FindingsFor(zig, sorted[i], targets, lenient);
    }
    assert sorted[..|sorted|] == sorted;
    findings := Sort(findings, FindingBelow);
  }

  /** No symbol is used twice: the uses are the values of a map keyed by symbol. */
  ghost predicate DistinctSymbols(uses: seq<Use>) {
    forall a, b | a in uses && b in uses :: a.symbol == b.symbol ==> a == b
  }

  lemma UseOrder(uses: seq<Use>)
    requires DistinctSymbols(uses)
    ensures Preorder(UseBelow) && TieFree(uses, UseBelow)
  {
    BelowPreorder([]);
    forall a: Use, b: Use ensures UseBelow(a, b) || UseBelow(b, a) {
      BelowTotal(a.symbol, b.symbol);
    }
    forall a: Use, b: Use, c: Use | UseBelow(a, b) && UseBelow(b, c) ensures UseBelow(a, c) {
      BelowTransitive(a.symbol, b.symbol, c.symbol);
    }
    forall a, b | a in uses && b in uses && UseBelow(a, b) && UseBelow(b, a) ensures a == b {
      BelowAntisymmetric(a.symbol, b.symbol);
    }
  }

  /** The order in which the hash map yields the uses does not show in the findings. */
  lemma AuditOrderFree(zig: ZigModule, uses: seq<Use>, other: seq<Use>, targets: Targets, lenient: bool)
    requires DistinctSymbols(uses) && multiset(uses) == multiset(other)
    ensures Sort(uses, UseBelow) == Sort(other, UseBelow)
    ensures Sort(Findings(zig, Sort(uses, UseBelow), targets, lenient), FindingBelow)
         == Sort(Findings(zig, Sort(other, UseBelow), targets, lenient), FindingBelow)
  {
    UseOrder(uses);
    SortPermutation(uses, other, UseBelow);
  }

  lemma FindingOrder()
    ensures Preorder(FindingBelow)
  {
    forall a: Finding, b: Finding ensures FindingBelow(a, b) || FindingBelow(b, a) {
      BelowTotal(a.symbol, b.symbol);
    }
    forall a: Finding, b: Finding, c: Finding | FindingBelow(a, b) && FindingBelow(b, c) ensures FindingBelow(a, c) {
      if a.symbol != b.symbol && b.symbol != c.symbol {
        BelowTransitive(a.symbol, b.symbol, c.symbol);
        if a.symbol == c.symbol {
          BelowAntisymmetric(a.symbol, b.symbol);
        }
      }
    }
  }

  /** The two sorts lose no finding and add none. */
  lemma AuditMembers(zig: ZigModule, uses: seq<Use>, targets: Targets, lenient: bool, f: Finding)
    requires DistinctSymbols(uses)
    ensures f in Sort(Findings(zig, Sort(uses, UseBelow), targets, lenient), FindingBelow)
       <==> f in Findings(zig, uses, targets, lenient)
  {
    UseOrder(uses);
    FindingOrder();
    SortMembers(uses, UseBelow);
    SortMembers(Findings(zig, Sort(uses, UseBelow), targets, lenient), FindingBelow);
    FindingsMember(zig, Sort(uses, UseBelow), targets, lenient, f);
    FindingsMember(zig, uses, targets, lenient, f);
  }

  /** What a finding says of a backend with this status. */
  ghost predicate SaysOf(status: Status, targeted: bool, evidence: string, lenient: bool, f: Finding) {
    match status
    case Ok => false
    case Fail =>
      && f.severity == (if targeted then Hard else Mirror)
      && f.signature == if lenient then "lenient:" + evidence else evidence
    case CheckFail => f.severity == Unprobed && f.signature == "registry verdict is checker-rejected in probe shape"
    case Decl => f.severity == Unprobed && f.signature == "registry verdict is declaration-plane"
  }

  /** The use gives rise to the finding: one without a backend when the registry does not know the symbol, and otherwise
      one on each backend that is not fine, with the registry's own evidence when the probe failed there. */
  ghost predicate Reports(zig: ZigModule, use: Use, targets: Targets, lenient: bool, f: Finding) {
    && f.symbol == use.symbol && f.class_ == use.class_
    && match Ask(zig, use.symbol)
       case None =>
         && f.backend == None && f.severity == Unprobed
         && f.signature == (if lenient then "lenient:no registry entry" else "no registry entry")
       case Some(e) =>
         || (f.backend == Some(TextMirror) && SaysOf(e.text, targets.text, e.signature, lenient, f))
         || (f.backend == Some(Sab) && SaysOf(e.sab, targets.sab, e.signature, lenient, f))
  }

  lemma BackendReports(use: Use, e: Entry, backend: Backend, targets: Targets, lenient: bool, f: Finding)
    ensures f in BackendFindings(use, e, backend, targets, lenient) <==>
      && f.symbol == use.symbol && f.class_ == use.class_ && f.backend == Some(backend)
      && var (status, targeted) := if backend == TextMirror then (e.text, targets.text) else (e.sab, targets.sab);
         SaysOf(status, targeted, e.signature, lenient, f)
  {
  }

  lemma UseReports(zig: ZigModule, use: Use, targets: Targets, lenient: bool, f: Finding)
    ensures f in FindingsFor(zig, use, targets, lenient) <==> Reports(zig, use, targets, lenient, f)
  {
    match Ask(zig, use.symbol)
    case None =>
    case Some(e) =>
      BackendReports(use, e, TextMirror, targets, lenient, f);
      BackendReports(use, e, Sab, targets, lenient, f);
      var a, b := BackendFindings(use, e, TextMirror, targets, lenient), BackendFindings(use, e, Sab, targets, lenient);
      assert f in a + b <==> f in a || f in b;
  }

  /** What the audit hands back, of any list of uses: exactly the findings that some use gives rise to. */
  lemma AuditReports(zig: ZigModule, uses: seq<Use>, targets: Targets, lenient: bool, f: Finding)
    requires DistinctSymbols(uses)
    ensures f in Sort(Findings(zig, Sort(uses, UseBelow), targets, lenient), FindingBelow)
       <==> exists u :: u in uses && Reports(zig, u, targets, lenient, f)
  {
    AuditMembers(zig, uses, targets, lenient, f);
    FindingsMember(zig, uses, targets, lenient, f);
    forall u ensures f in FindingsFor(zig, u, targets, lenient) <==> Reports(zig, u, targets, lenient, f) {
      UseReports(zig, u, targets, lenient, f);
    }
  }

  /** By symbol; of one symbol text before SAB, and a finding without a backend last. */
  ghost predicate FindingPrecedes(a: Finding, b: Finding) {
    if a.symbol != b.symbol then Precedes(a.symbol, b.symbol)
    else a.backend == Some(TextMirror) || b.backend == None || a.backend == b.backend
  }

  lemma UsesInOrder(uses: seq<Use>, i: nat, j: nat)
    requires DistinctSymbols(uses) && i < j < |Sort(uses, UseBelow)|
    ensures Precedes(Sort(uses, UseBelow)[i].symbol, Sort(uses, UseBelow)[j].symbol)
  {
    var sorted := Sort(uses, UseBelow);
    UseOrder(uses);
    SortCorrect(uses, UseBelow);
    assert UseBelow(sorted[i], sorted[j]);
    BelowMeaning(sorted[i].symbol, sorted[j].symbol);
  }

  lemma InFindingOrder(a: Finding, b: Finding)
    ensures FindingBelow(a, b) <==> FindingPrecedes(a, b)
  {
    BelowMeaning(a.symbol, b.symbol);
  }

  lemma FindingsInOrder(findings: seq<Finding>, i: nat, j: nat)
    requires i < j < |Sort(findings, FindingBelow)|
    ensures FindingPrecedes(Sort(findings, FindingBelow)[i], Sort(findings, FindingBelow)[j])
  {
    var sorted := Sort(findings, FindingBelow);
    FindingOrder();
    SortCorrect(findings, FindingBelow);
    assert FindingBelow(sorted[i], sorted[j]);
    InFindingOrder(sorted[i], sorted[j]);
  }

  /** What the audit hands back is in order. */
  lemma AuditInOrder(zig: ZigModule, uses: seq<Use>, targets: Targets, lenient: bool, i: nat, j: nat)
    requires DistinctSymbols(uses)
    ensures var sorted := Sort(uses, UseBelow); i < j < |sorted| ==> Precedes(sorted[i].symbol, sorted[j].symbol)
    ensures var findings := Sort(Findings(zig, Sort(uses, UseBelow), targets, lenient), FindingBelow);
      i < j < |findings| ==> FindingPrecedes(findings[i], findings[j])
  {
    if i < j < |Sort(uses, UseBelow)| {
      UsesInOrder(uses, i, j);
    }
    var findings := Findings(zig, Sort(uses, UseBelow), targets, lenient);
    if i < j < |Sort(findings, FindingBelow)| {
      FindingsInOrder(findings, i, j);
    }
  }

  /** `hardCount` */
  method HardCount(findings: seq<Finding>) returns (n: nat)
    ensures n == |Filter(findings, IsHard)|
    ensures n == 0 <==> forall f :: f in findings ==> f.severity != Hard
  {
    n := 0;
    for i := 0 to |findings|
      invariant n == |Filter(findings[..i], IsHard)|
    {
      assert findings[..i + 1] == findings[..i] + [findings[i]];
      FilterAppend(findings[..i], [findings[i]], IsHard);
      if findings[i].severity == Hard {
        n := n + 1;
      }
    }
    assert findings[..|findings|] == findings;
    if n == 0 {
      forall f | f in findings ensures f.severity != Hard {
        assert f !in Filter(findings, IsHard);
      }
    } else {
      assert Filter(findings, IsHard)[0] in Filter(findings, IsHard);
    }
  }

  predicate IsHard(f: Finding) {
    f.severity == Hard
  }

  /** A use blocks a build when the registry says that its probe failed on a targeted backend. */
  predicate Blocks(zig: ZigModule, use: Use, targets: Targets) {
    match Ask(zig, use.symbol)
    case None => false
    case Some(e) => (targets.text && e.text == Fail) || (targets.sab && e.sab == Fail)
  }

  lemma {:induction false} FindingsMember(zig: ZigModule, uses: seq<Use>, targets: Targets, lenient: bool, f: Finding)
    ensures f in Findings(zig, uses, targets, lenient) <==>
      exists u :: u in uses && f in FindingsFor(zig, u, targets, lenient)
  {
    if uses != [] {
      FindingsMember(zig, uses[1..], targets, lenient, f);
      assert uses == [uses[0]] + uses[1..];
    }
  }

  lemma BackendHard(use: Use, e: Entry, backend: Backend, targets: Targets, lenient: bool)
    ensures (exists f :: f in BackendFindings(use, e, backend, targets, lenient) && f.severity == Hard)
       <==> StatusOn(e, backend) == Fail && Targeted(targets, backend)
  {
    var fs := BackendFindings(use, e, backend, targets, lenient);
    if fs != [] {
      assert fs[0] in fs;
    }
  }

  lemma UseHard(zig: ZigModule, use: Use, targets: Targets, lenient: bool)
    ensures (exists f :: f in FindingsFor(zig, use, targets, lenient) && f.severity == Hard) <==> Blocks(zig, use, targets)
  {
    match Ask(zig, use.symbol)
    case None =>
    case Some(e) =>
      BackendHard(use, e, TextMirror, targets, lenient);
      BackendHard(use, e, Sab, targets, lenient);
      var a, b := BackendFindings(use, e, TextMirror, targets, lenient), BackendFindings(use, e, Sab, targets, lenient);
      assert forall f :: f in a + b <==> f in a || f in b;
  }

  /** The audit is clean exactly when no use blocks: nothing that a targeted backend lacks is dropped, and nothing else
      is held against the build. */
  lemma HardExactlyWhenBlocked(zig: ZigModule, uses: seq<Use>, targets: Targets, lenient: bool)
    ensures (exists f :: f in Findings(zig, uses, targets, lenient) && f.severity == Hard)
       <==> exists u :: u in uses && Blocks(zig, u, targets)
  {
    if f :| f in Findings(zig, uses, targets, lenient) && f.severity == Hard {
      FindingsMember(zig, uses, targets, lenient, f);
      var u :| u in uses && f in FindingsFor(zig, u, targets, lenient);
      UseHard(zig, u, targets, lenient);
    }
    if u :| u in uses && Blocks(zig, u, targets) {
      UseHard(zig, u, targets, lenient);
      var f :| f in FindingsFor(zig, u, targets, lenient) && f.severity == Hard;
      FindingsMember(zig, uses, targets, lenient, f);
    }
  }

  lemma BackendListed(use: Use, e: Entry, backend: Backend, targets: Targets, lenient: bool)
    ensures var fs := BackendFindings(use, e, backend, targets, lenient);
      && |fs| == (if StatusOn(e, backend) == Ok then 0 else 1)
      && forall f :: f in fs ==> f.backend == Some(backend) && f.symbol == use.symbol
                                 && (f.severity == Unprobed <==> StatusOn(e, backend) != Fail)
  {
  }

  /** Nothing is silent but what is fine: each use has one finding for each backend that is not ok, text first, or a
      single one without a backend when the registry does not know it. */
  lemma EveryGapIsListed(zig: ZigModule, use: Use, targets: Targets, lenient: bool)
    ensures var fs := FindingsFor(zig, use, targets, lenient);
      match Ask(zig, use.symbol)
      case None => |fs| == 1 && fs[0].backend == None && fs[0].severity == Unprobed
      case Some(e) =>
        && |fs| == (if e.text == Ok then 0 else 1) + (if e.sab == Ok then 0 else 1)
        && (e.text != Ok ==> fs[0].backend == Some(TextMirror))
        && (e.sab != Ok ==> fs[|fs| - 1].backend == Some(Sab))
        && forall f :: f in fs ==> f.backend.Some? && (f.severity == Unprobed <==> StatusOn(e, f.backend.value) != Fail)
  {
    if Ask(zig, use.symbol).Some? {
      BackendListed(use, Ask(zig, use.symbol).value, TextMirror, targets, lenient);
      BackendListed(use, Ask(zig, use.symbol).value, Sab, targets, lenient);
    }
  }

  lemma FindingSymbol(zig: ZigModule, use: Use, targets: Targets, lenient: bool)
    ensures forall f :: f in FindingsFor(zig, use, targets, lenient) ==> f.symbol == use.symbol
  {
  }

  /** The audit is silent on a used symbol exactly when the registry knows it and has it fine on both backends, whatever
      is targeted. */
  lemma SilentIffFine(zig: ZigModule, uses: seq<Use>, use: Use, targets: Targets, lenient: bool)
    requires use in uses
    ensures (forall f :: f in Findings(zig, uses, targets, lenient) ==> f.symbol != use.symbol)
       <==> var found := Ask(zig, use.symbol); found.Some? && found.value.text == Ok && found.value.sab == Ok
  {
    EveryGapIsListed(zig, use, targets, lenient);
    var found := Ask(zig, use.symbol);
    var fs := FindingsFor(zig, use, targets, lenient);
    if found.Some? && found.value.text == Ok && found.value.sab == Ok {
      forall f | f in Findings(zig, uses, targets, lenient) ensures f.symbol != use.symbol {
        FindingsMember(zig, uses, targets, lenient, f);
        var u :| u in uses && f in FindingsFor(zig, u, targets, lenient);
        FindingSymbol(zig, u, targets, lenient);
        EveryGapIsListed(zig, u, targets, lenient);
      }
    } else {
      FindingSymbol(zig, use, targets, lenient);
      FindingsMember(zig, uses, targets, lenient, fs[0]);
    }
  }

  lemma SabFails(e: Entry, row: Row)
    requires Renders(e, row)
    ensures "sab" in row && (e.sab == Fail <==> row["sab"] == "fail")
  {
    assert "sab" in ENTRY_COLUMNS;
  }

  /** A row whose probe failed on SAB. */
  ghost predicate FailsOnSab(row: Row) {
    "sab" in row && row["sab"] == "fail"
  }

  /** From the registry rows: a production build is blocked by a symbol exactly when its least row says that the probe
      failed on SAB. */
  lemma ProductionBlocks(zig: ZigModule, rows: seq<Row>, use: Use)
    requires Answers(zig, rows) && forall row :: row in rows ==> Shaped(row)
    ensures Blocks(zig, use, PRODUCTION) <==>
      exists row :: IsLeast(rows, row) && Symbol(row) == use.symbol && FailsOnSab(row)
  {
    assert AnswersFor(Ask(zig, use.symbol), use.symbol, rows);
    match Ask(zig, use.symbol)
    case None =>
    case Some(e) =>
      var row :| IsLeast(rows, row) && Symbol(row) == use.symbol && Renders(e, row);
      SabFails(e, row);
      forall other | IsLeast(rows, other) && Symbol(other) == use.symbol ensures other == row {
        LeastIsUnique(rows, row, other);
      }
  }

  // ----- from the results -----

  /** The last result of the probe on SAB is a failure past the checker. */
  ghost predicate FailedOnSab(results: seq<Row>, pid: string)
    requires Keyed(results)
  {
    match Pick(results, pid, "sab")
    case None => false
    case Some(r) => "verdict" in r && r["verdict"] != "ok" && "phase" in r && r["phase"] != "check"
  }

  lemma ProbedFails(results: seq<Row>, c: Row)
    requires Keyed(results) && Probed(results, c).Success?
    ensures FailsOnSab(Probed(results, c).value) <==> FailedOnSab(results, c["probe_id"])
  {
    Segments("sab", Pick(results, c["probe_id"], "sab"));
  }

  /** The carried spec row stands behind the least row of its symbol. */
  ghost predicate Decides(results: seq<Row>, direct: seq<Row>, c: Row, symbol: string)
    requires Keyed(results)
  {
    && Probed(results, c).Success? && IsLeast(direct, Probed(results, c).value)
    && Symbol(Probed(results, c).value) == symbol
    && FailedOnSab(results, c["probe_id"])
  }

  lemma ReceivedNeverFails(pairs: seq<(string, string)>, row: Row)
    requires row in ReceivedRows(pairs)
    ensures !FailsOnSab(row)
  {
    var i :| 0 <= i < |pairs| && row == ReceivedRow(pairs[i]);
  }

  lemma FailingRow(results: seq<Row>, carried: seq<Row>, direct: seq<Row>, row: Row, symbol: string)
    requires Keyed(results) && ProbedAll(results, carried).Success?
    requires row in ProbedAll(results, carried).value && IsLeast(direct, row) && Symbol(row) == symbol && FailsOnSab(row)
    ensures exists c :: c in carried && Decides(results, direct, c, symbol)
  {
    var probed := ProbedAll(results, carried).value;
    var i :| 0 <= i < |probed| && probed[i] == row;
    ProbedFails(results, carried[i]);
    assert carried[i] in carried && Decides(results, direct, carried[i], symbol);
  }

  lemma DirectFails(results: seq<Row>, spec: seq<Row>, listing: seq<(string, string)>, symbol: string)
    requires Keyed(results) && DirectRows(results, spec, listing).Success?
    ensures var direct := DirectRows(results, spec, listing).value;
      (exists row :: IsLeast(direct, row) && Symbol(row) == symbol && FailsOnSab(row))
      <==> exists c :: c in spec && Carried(c) && Decides(results, direct, c, symbol)
  {
    var direct := DirectRows(results, spec, listing).value;
    var carried := Filter(spec, Carried);
    if row :| IsLeast(direct, row) && Symbol(row) == symbol && FailsOnSab(row) {
      if row in ReceivedRows(DeclPairs(listing)) {
        ReceivedNeverFails(DeclPairs(listing), row);
      } else {
        FailingRow(results, carried, direct, row, symbol);
      }
    }
    if c :| c in spec && Carried(c) && Decides(results, direct, c, symbol) {
      ProbedFails(results, c);
    }
  }

  /** From the spec and the results: with an accepted table and no file name that brings a row with it, a symbol blocks a
      production build exactly when a carried spec row of it, the one with the least line, has a probe whose last result
      on SAB is a failure past the checker. */
  lemma BlockedByEvidence(specText: string, templates: map<string, string>, listing: seq<(string, string)>,
                          resultsText: string, pluginHead: string, stdHead: string, use: Use)
    ensures var results, spec := ReadTable(resultsText).rows, ReadTable(specText).rows;
      var registry := RegistryFrom(specText, templates, listing, resultsText, pluginHead, stdHead);
      registry.Success? ==>
        && Keyed(results) && DirectRows(results, spec, listing).Success?
        && (Accepted(Emitted(registry.value)) && AllContained(DeclPairs(listing)) ==>
              (Blocks(Decode(Emitted(registry.value).value).value, use, PRODUCTION) <==>
                 exists c :: c in spec && Carried(c)
                             && Decides(results, DirectRows(results, spec, listing).value, c, use.symbol)))
  {
    var results, spec := ReadTable(resultsText).rows, ReadTable(specText).rows;
    var registry := RegistryFrom(specText, templates, listing, resultsText, pluginHead, stdHead);
    if registry.Success? {
      AcceptedSays(specText, templates, listing, resultsText, pluginHead, stdHead);
      if Accepted(Emitted(registry.value)) && AllContained(DeclPairs(listing)) {
        DirectShaped(results, spec, specText, resultsText, listing);
        ProductionBlocks(Decode(Emitted(registry.value).value).value, DirectRows(results, spec, listing).value, use);
        DirectFails(results, spec, listing, use.symbol);
      }
    }
  }

  lemma DirectShaped(results: seq<Row>, spec: seq<Row>, specText: string, resultsText: string, listing: seq<(string, string)>)
    requires results == ReadTable(resultsText).rows && spec == ReadTable(specText).rows
    requires Keyed(results) && DirectRows(results, spec, listing).Success?
    ensures forall row :: row in DirectRows(results, spec, listing).value ==> Shaped(row)
  {
    ReadTableFields(specText);
    ReadTableFields(resultsText);
    ProbedRowsSound(results, spec);
    PairsNamed(listing);
    ReceivedAreRead(DeclPairs(listing));
    SurfaceShaped(DeclPairs(listing));
  }
}
