/** The std file names in the declared plane: what the builder makes of the lines they are written into. */
module SurfaceNames {
  import opened Strings
  import opened Ordering
  import opened Tsv
  import opened DeclaredNames
  import opened GenProbes
  import opened EmitRegistry
  import opened HeadLines
  import opened RegistryFile
  import opened Pipeline

  // ----- what is read back -----

  /** As much of a name, with the parenthesis after it, as stays in the note: up to the first tab or break. */
  function Kept(file: string): string {
    Split(FirstLine(file + ")"), '\t')[0]
  }

  /** The declared row as the builder reads it. */
  function ReceivedRow(pair: (string, string)): Row {
    NotedRow(pair.0, NOTE_FRONT + Kept(pair.1))
  }

  /** The rows that the builder reads from the further lines of a name. */
  function StrayRows(file: string): seq<Row> {
    ParseRows(REGISTRY_COLUMNS, Filter(Further(file + ")"), HasText))
  }

  function PairRows(pair: (string, string)): seq<Row> {
    [ReceivedRow(pair)] + StrayRows(pair.1)
  }

  /** All rows that the builder reads from the declared plane. */
  function SurfaceRows(pairs: seq<(string, string)>): seq<Row> {
    FlatMap(pairs, PairRows)
  }

  function ReceivedRows(pairs: seq<(string, string)>): (rows: seq<Row>)
    ensures |rows| == |pairs|
    ensures forall i :: 0 <= i < |pairs| ==> rows[i] == ReceivedRow(pairs[i])
  {
    if pairs == [] then [] else [ReceivedRow(pairs[0])] + ReceivedRows(pairs[1..])
  }

  lemma {:induction false} SplitJoinLast(parts: seq<string>, last: string, c: char)
    requires forall p :: p in parts ==> c !in p
    ensures Split(Join([c], parts + [last]), c) == parts + Split(last, c)
  {
    if parts == [] {
      assert parts + [last] == [last];
    } else {
      SplitJoinLast(parts[1..], last, c);
      assert parts[0] in parts;
      JoinCons([c], parts[0], parts[1..] + [last]);
      SplitAtFirst(parts[0], c, Join([c], parts[1..] + [last]));
      Assoc([parts[0]], parts[1..], [last]);
      Assoc([parts[0]], parts[1..], Split(last, c));
      assert [parts[0]] + parts[1..] == parts;
    }
  }

  lemma JoinCons(sep: string, first: string, rest: seq<string>)
    requires rest != []
    ensures Join(sep, [first] + rest) == first + (sep + Join(sep, rest))
  {
    assert ([first] + rest)[1..] == rest;
  }

  /** The columns of a declared row before its note. */
  function Front(symbol: string): seq<string> {
    [symbol, "declared", "decl", "decl", "", ""]
  }

  lemma DeclLine(symbol: string, note: string)
    ensures HasColumns(NotedRow(symbol, note), REGISTRY_COLUMNS)
    ensures Fields(NotedRow(symbol, note), REGISTRY_COLUMNS) == Front(symbol) + [note]
    ensures Line(NotedRow(symbol, note), REGISTRY_COLUMNS) == Join("\t", Front(symbol) + [note])
  {
    var row := NotedRow(symbol, note);
    var fields := Fields(row, REGISTRY_COLUMNS);
    assert REGISTRY_COLUMNS[0] == "symbol" && REGISTRY_COLUMNS[1] == "class" && REGISTRY_COLUMNS[2] == "text"
        && REGISTRY_COLUMNS[3] == "sab" && REGISTRY_COLUMNS[4] == "signature" && REGISTRY_COLUMNS[5] == "probe_id"
        && REGISTRY_COLUMNS[6] == "note";
    assert fields == Front(symbol) + [note];
  }

  lemma {:induction false} JoinLast(parts: seq<string>, front: string, last: string)
    ensures Join("\t", parts + [front + last]) == Join("\t", parts + [front]) + last
  {
    if parts == [] {
      assert parts + [front + last] == [front + last] && parts + [front] == [front];
    } else {
      assert (parts + [front + last])[1..] == parts[1..] + [front + last] && (parts + [front])[1..] == parts[1..] + [front];
      JoinLast(parts[1..], front, last);
      Assoc("\t", Join("\t", parts[1..] + [front]), last);
      Assoc(parts[0], "\t" + Join("\t", parts[1..] + [front]), last);
    }
  }

  /** What stands on a declared line before the name. */
  function LineFront(symbol: string): string {
    Join("\t", Front(symbol) + [NOTE_FRONT])
  }

  lemma LineFrontIsWhole(symbol: string)
    requires Field(symbol)
    ensures NoBreak(LineFront(symbol))
  {
    NoteFrontField();
    forall c | c in LineFront(symbol) ensures c != '\n' && c != '\r' {
      JoinChars("\t", Front(symbol) + [NOTE_FRONT], c);
    }
  }

  lemma NoteFrontField()
    ensures Field(NOTE_FRONT)
  {
  }

  lemma FrontFields(symbol: string)
    requires Field(symbol)
    ensures forall p :: p in Front(symbol) ==> '\t' !in p
  {
  }

  lemma FirstColumns(symbol: string, first: string)
    requires Field(symbol)
    ensures Split(LineFront(symbol) + first, '\t')
         == Front(symbol) + ([NOTE_FRONT + Split(first, '\t')[0]] + Split(first, '\t')[1..])
  {
    NoteFrontField();
    FrontFields(symbol);
    JoinLast(Front(symbol), NOTE_FRONT, first);
    SplitJoinLast(Front(symbol), NOTE_FRONT + first, '\t');
    PrefixedSplit(NOTE_FRONT, first, '\t');
  }

  /** The first line of a declared row is read back as the received row. */
  lemma FirstRead(symbol: string, first: string)
    requires Field(symbol)
    ensures ParseRow(REGISTRY_COLUMNS, LineFront(symbol) + first) == NotedRow(symbol, NOTE_FRONT + Split(first, '\t')[0])
  {
    FirstColumns(symbol, first);
    var note, more := NOTE_FRONT + Split(first, '\t')[0], Split(first, '\t')[1..];
    FirstSeven(Front(symbol), note, more);
    SevenColumns(symbol, note, Front(symbol) + ([note] + more));
  }

  lemma FirstSeven(front: seq<string>, note: string, more: seq<string>)
    requires |front| == 6
    ensures (front + ([note] + more))[..7] == front + [note]
  {
  }

  lemma SevenColumns(symbol: string, note: string, parts: seq<string>)
    requires |parts| >= 7 && parts[..7] == Front(symbol) + [note]
    ensures Zip(REGISTRY_COLUMNS, Pad(parts, |REGISTRY_COLUMNS|)) == NotedRow(symbol, note)
  {
    RegistryColumns();
    DeclLine(symbol, note);
    ZipPrefix(REGISTRY_COLUMNS, parts, Fields(NotedRow(symbol, note), REGISTRY_COLUMNS));
    ZipFields(NotedRow(symbol, note), REGISTRY_COLUMNS);
    NotedKeys(symbol, note);
  }

  lemma {:induction false} ZipPrefix(header: seq<string>, parts: seq<string>, front: seq<string>)
    requires |header| == |front| <= |parts| && parts[..|front|] == front
    ensures Zip(header, parts) == Zip(header, front)
  {
    if header != [] {
      var n := |header| - 1;
      assert parts[n] == parts[..|front|][n];
      assert parts[..n][..n] == front[..n];
      ZipPrefix(header[..n], parts[..n], front[..n]);
    }
  }

  lemma NotedKeys(symbol: string, note: string)
    ensures HasColumns(NotedRow(symbol, note), REGISTRY_COLUMNS)
    ensures Project(NotedRow(symbol, note), REGISTRY_COLUMNS) == NotedRow(symbol, note)
  {
    RegistryKeys();
    var row := NotedRow(symbol, note);
    assert row.Keys == set c | c in REGISTRY_COLUMNS;
  }

  lemma ReadLines(symbol: string, file: string)
    requires IsIdentifier(symbol)
    ensures Terminated(Line(DeclRow(symbol, file), REGISTRY_COLUMNS))
         == [LineFront(symbol) + FirstLine(file + ")")] + Further(file + ")")
  {
    IdentifierField(symbol);
    DeclLine(symbol, NOTE_FRONT + (file + ")"));
    JoinLast(Front(symbol), NOTE_FRONT, file + ")");
    LineFrontIsWhole(symbol);
    StampedLines(LineFront(symbol), file + ")");
  }

  lemma IdentifierField(s: string)
    requires IsIdentifier(s)
    ensures Field(s) && s != "" && !IsSpace(s[0]) && s[0] != '#'
  {
    assert s[0] in s;
  }

  lemma FirstHasText(symbol: string, rest: string)
    requires IsIdentifier(symbol)
    ensures HasText(LineFront(symbol) + rest)
  {
    IdentifierField(symbol);
    FirstFieldThenTab(Front(symbol) + [NOTE_FRONT]);
    assert (LineFront(symbol) + rest)[0] == symbol[0];
    NotBlank(LineFront(symbol) + rest);
  }

  lemma ReadPair(pair: (string, string))
    requires IsIdentifier(pair.0)
    ensures ParseRows(REGISTRY_COLUMNS, Filter(Terminated(Line(DeclRow(pair.0, pair.1), REGISTRY_COLUMNS)), HasText))
         == PairRows(pair)
  {
    var first := LineFront(pair.0) + FirstLine(pair.1 + ")");
    var further := Further(pair.1 + ")");
    ReadLines(pair.0, pair.1);
    FirstHasText(pair.0, FirstLine(pair.1 + ")"));
    IdentifierField(pair.0);
    FirstRead(pair.0, FirstLine(pair.1 + ")"));
    assert ([first] + further)[1..] == further;
    assert ([first] + Filter(further, HasText))[1..] == Filter(further, HasText);
  }

  lemma {:induction false} ReadPairs(pairs: seq<(string, string)>, lines: seq<string>)
    requires forall p :: p in pairs ==> IsIdentifier(p.0)
    requires lines == WrittenLines(DeclRows(pairs), REGISTRY_COLUMNS).0
    ensures ParseRows(REGISTRY_COLUMNS, Filter(FlatMap(lines, Terminated), HasText)) == SurfaceRows(pairs)
  {
    if pairs != [] {
      var tail := WrittenLines(DeclRows(pairs[1..]), REGISTRY_COLUMNS).0;
      var first := Line(DeclRow(pairs[0].0, pairs[0].1), REGISTRY_COLUMNS);
      assert DeclRows(pairs)[1..] == DeclRows(pairs[1..]);
      assert lines == [first] + tail && lines[1..] == tail;
      assert pairs[0] in pairs;
      ReadPairs(pairs[1..], tail);
      ReadPair(pairs[0]);
      FilterAppend(Terminated(first), FlatMap(tail, Terminated), HasText);
      ParseRowsAppend(REGISTRY_COLUMNS, Filter(Terminated(first), HasText), Filter(FlatMap(tail, Terminated), HasText));
    }
  }

  lemma PairsNamed(listing: seq<(string, string)>)
    ensures forall p :: p in DeclPairs(listing) ==> IsIdentifier(p.0)
  {
    PairBelowPreorder(Declared(listing));
    SortMembers(Dedup(Declared(listing)), PairBelow);
    forall p | p in DeclPairs(listing) ensures IsIdentifier(p.0) {
      DeclaredNamed(listing, p);
    }
  }

  /** The builder reads each declared row with as much of its note as the name leaves on the line, and one more row from
      each further line of the name, whatever the names of the std files are. */
  lemma DeclaredStage(listing: seq<(string, string)>)
    ensures var rows := DeclRows(DeclPairs(listing));
      ReadTable(TableText(REGISTRY_COLUMNS, WrittenLines(rows, REGISTRY_COLUMNS).0)).rows == SurfaceRows(DeclPairs(listing))
  {
    var lines := WrittenLines(DeclRows(DeclPairs(listing)), REGISTRY_COLUMNS).0;
    PairsNamed(listing);
    ReadPairs(DeclPairs(listing), lines);
    TableRead(lines);
  }

  lemma TableRead(lines: seq<string>)
    ensures ReadTable(TableText(REGISTRY_COLUMNS, lines)).rows
         == ParseRows(REGISTRY_COLUMNS, Filter(FlatMap(lines, Terminated), HasText))
  {
    var header := Join("\t", REGISTRY_COLUMNS);
    RegistryHeader();
    FileLinesEach([header] + lines);
    assert ([header] + lines)[1..] == lines;
    OneLine(header);
    FilterAppend([header], FlatMap(lines, Terminated), HasText);
    OneKept(header);
    var kept := Filter(FlatMap(lines, Terminated), HasText);
    assert ([header] + kept)[1..] == kept;
  }

  lemma OneLine(line: string)
    requires NoBreak(line)
    ensures Terminated(line) == [line]
  {
    FileLinesOfUnlines([line]);
    assert ['\n'] + Unlines([]) == "\n";
    assert [line][1..] == [];
  }

  lemma OneKept(line: string)
    requires IsData(line)
    ensures Filter([line], HasText) == [line]
  {
    assert [line][1..] == [];
  }

  // ----- the rows are shaped -----

  lemma InsideIsTranslated(head: string)
    ensures '\r' !in Inside(head)
  {
    TranslateEnds(head);
  }

  lemma LinesOfName(head: string)
    ensures NoBreak(FirstLine(head)) && forall l :: l in Further(head) ==> NoBreak(l)
  {
    InsideIsTranslated(head);
    var lines := Split(Inside(head), '\n');
    forall l | l in lines ensures NoBreak(l) {
      assert '\n' !in l && forall c :: c in l ==> c in Inside(head);
    }
    assert FirstLine(head) in lines;
    assert forall l :: l in lines[1..] ==> l in lines;
  }

  lemma ParsedShaped(line: string)
    requires NoBreak(line)
    ensures Shaped(ParseRow(REGISTRY_COLUMNS, line))
  {
    ParseRowFields(REGISTRY_COLUMNS, line);
    RegistryKeys();
  }

  lemma KeptField(file: string)
    ensures Field(NOTE_FRONT + Kept(file))
  {
    NoteFrontField();
    LinesOfName(file + ")");
    var first := FirstLine(file + ")");
    assert Kept(file) in Split(first, '\t');
    assert forall c :: c in Kept(file) ==> c in first;
  }

  lemma NotedSound(symbol: string, note: string)
    requires IsIdentifier(symbol) && Field(note)
    ensures Sound(NotedRow(symbol, note)) && Visible(NotedRow(symbol, note))
  {
    IdentifierField(symbol);
    NotedFields(symbol, note);
    JoinedSound(NotedRow(symbol, note));
    SoundVisible(NotedRow(symbol, note));
    HashOpens(symbol);
  }

  lemma ReceivedSound(pair: (string, string))
    requires IsIdentifier(pair.0)
    ensures Sound(ReceivedRow(pair)) && Visible(ReceivedRow(pair))
  {
    KeptField(pair.1);
    NotedSound(pair.0, NOTE_FRONT + Kept(pair.1));
  }

  lemma NotedFields(symbol: string, note: string)
    requires Field(symbol) && Field(note)
    ensures FieldRow(NotedRow(symbol, note))
  {
    assert Field("declared") && Field("decl") && Field("");
  }

  lemma StraysShaped(file: string)
    ensures forall row :: row in StrayRows(file) ==> Shaped(row)
  {
    LinesOfName(file + ")");
    var lines := Filter(Further(file + ")"), HasText);
    forall row | row in StrayRows(file) ensures Shaped(row) {
      var i :| 0 <= i < |lines| && row == ParseRow(REGISTRY_COLUMNS, lines[i]);
      assert lines[i] in lines;
      ParsedShaped(lines[i]);
    }
  }

  lemma {:induction false} SurfaceShaped(pairs: seq<(string, string)>)
    requires forall p :: p in pairs ==> IsIdentifier(p.0)
    ensures forall row :: row in SurfaceRows(pairs) ==> Shaped(row)
  {
    if pairs != [] {
      assert pairs[0] in pairs;
      SurfaceShaped(pairs[1..]);
      ReceivedSound(pairs[0]);
      StraysShaped(pairs[0].1);
    }
  }

  // ----- names that let no row in -----

  /** What the builder writes for a line it has read: its first seven columns. */
  function Registered(line: string): string {
    Join("\t", Pad(Split(line, '\t'), |REGISTRY_COLUMNS|)[..|REGISTRY_COLUMNS|])
  }

  /** Further lines of a name, should it have any, are blank or comments as far as they are registered. */
  predicate Contained(file: string) {
    forall l :: l in Further(file + ")") ==> !IsData(Registered(l))
  }

  lemma RegisteredText(line: string)
    ensures Text(ParseRow(REGISTRY_COLUMNS, line)) == Registered(line)
  {
    RegistryColumns();
    var padded := Pad(Split(line, '\t'), |REGISTRY_COLUMNS|);
    var row := ParseRow(REGISTRY_COLUMNS, line);
    forall i | 0 <= i < |REGISTRY_COLUMNS| ensures REGISTRY_COLUMNS[i] in row && row[REGISTRY_COLUMNS[i]] == padded[i] {
      assert REGISTRY_COLUMNS[i] in REGISTRY_COLUMNS;
      ZipAt(REGISTRY_COLUMNS, padded, i);
    }
    assert Fields(row, REGISTRY_COLUMNS) == padded[..|REGISTRY_COLUMNS|];
  }

  lemma RegisteredBlank(line: string)
    requires Blank(line)
    ensures !IsData(Registered(line))
  {
    var parts := Split(line, '\t');
    forall p | p in Pad(parts, |REGISTRY_COLUMNS|)[..|REGISTRY_COLUMNS|] ensures Blank(p) {
      assert p in parts || p == "";
    }
    JoinBlank("\t", Pad(parts, |REGISTRY_COLUMNS|)[..|REGISTRY_COLUMNS|]);
  }

  lemma StrayAt(file: string, i: nat)
    requires i < |StrayRows(file)|
    ensures var lines := Filter(Further(file + ")"), HasText);
      && |lines| == |StrayRows(file)| && lines[i] in Further(file + ")")
      && (Visible(StrayRows(file)[i]) <==> IsData(Registered(lines[i])))
  {
    var lines := Filter(Further(file + ")"), HasText);
    assert lines[i] in lines;
    RegisteredText(lines[i]);
  }

  lemma SomeVisible(file: string)
    requires !Contained(file)
    ensures exists i :: 0 <= i < |StrayRows(file)| && Visible(StrayRows(file)[i])
  {
    var l :| l in Further(file + ")") && IsData(Registered(l));
    var lines := Filter(Further(file + ")"), HasText);
    if Blank(l) {
      RegisteredBlank(l);
    }
    assert l in lines;
    var i :| 0 <= i < |lines| && lines[i] == l;
    StrayAt(file, i);
  }

  lemma NoneVisible(file: string)
    requires Contained(file)
    ensures forall i :: 0 <= i < |StrayRows(file)| ==> !Visible(StrayRows(file)[i])
  {
    forall i | 0 <= i < |StrayRows(file)| ensures !Visible(StrayRows(file)[i]) {
      StrayAt(file, i);
    }
  }

  lemma {:induction false} NoneLeft(rows: seq<Row>, keep: Row -> bool)
    ensures Filter(rows, keep) == [] <==> forall i :: 0 <= i < |rows| ==> !keep(rows[i])
  {
    if Filter(rows, keep) != [] {
      assert Filter(rows, keep)[0] in Filter(rows, keep);
    }
    forall i | 0 <= i < |rows| && keep(rows[i]) ensures Filter(rows, keep) != [] {
      assert rows[i] in Filter(rows, keep);
    }
  }

  /** The emitter sees none of the stray rows of a name exactly when the name is contained. */
  lemma StraysVisible(file: string)
    ensures Filter(StrayRows(file), Visible) == [] <==> Contained(file)
  {
    NoneLeft(StrayRows(file), Visible);
    if Contained(file) {
      NoneVisible(file);
    } else {
      SomeVisible(file);
    }
  }

  /** All names of the surface are contained. */
  ghost predicate AllContained(pairs: seq<(string, string)>) {
    forall p :: p in pairs ==> Contained(p.1)
  }

  lemma VisibleReads(pair: (string, string))
    requires IsIdentifier(pair.0)
    ensures Filter(PairRows(pair), Visible) == [ReceivedRow(pair)] + Filter(StrayRows(pair.1), Visible)
  {
    ReceivedSound(pair);
    assert PairRows(pair)[1..] == StrayRows(pair.1);
  }

  /** The emitter sees one row for each declared pair, and no other exactly when all names are contained. */
  lemma {:induction false} SurfaceVisible(pairs: seq<(string, string)>)
    requires forall p :: p in pairs ==> IsIdentifier(p.0)
    ensures |Filter(SurfaceRows(pairs), Visible)| >= |pairs|
    ensures |Filter(SurfaceRows(pairs), Visible)| == |pairs| <==> AllContained(pairs)
    ensures AllContained(pairs) ==> Filter(SurfaceRows(pairs), Visible) == ReceivedRows(pairs)
  {
    if pairs != [] {
      assert pairs[0] in pairs && pairs == [pairs[0]] + pairs[1..];
      SurfaceVisible(pairs[1..]);
      VisibleReads(pairs[0]);
      StraysVisible(pairs[0].1);
      FilterAppend(PairRows(pairs[0]), SurfaceRows(pairs[1..]), Visible);
      if AllContained(pairs) {
        assert AllContained(pairs[1..]);
        assert [ReceivedRow(pairs[0])] + [] == [ReceivedRow(pairs[0])];
      } else if AllContained(pairs[1..]) {
        assert !Contained(pairs[0].1);
      }
    }
  }

  lemma {:induction false} ReceivedAreRead(pairs: seq<(string, string)>)
    requires forall p :: p in pairs ==> IsIdentifier(p.0)
    ensures forall row :: row in ReceivedRows(pairs) ==> row in SurfaceRows(pairs) && Visible(row)
  {
    if pairs != [] {
      assert pairs[0] in pairs;
      ReceivedAreRead(pairs[1..]);
      ReceivedSound(pairs[0]);
    }
  }

  /** An ordinary name is contained, and its note is kept whole. */
  lemma OrdinaryFile(file: string)
    requires Field(file)
    ensures Contained(file) && Kept(file) == file + ")"
  {
    var head := file + ")";
    assert Field(head);
    NoBreakInside(head);
    assert Inside(head) == head;
    assert Strings.Find(head, '\n') == |head|;
    assert Split(head, '\n') == [head];
    assert Strings.Find(head, '\t') == |head|;
  }
}
