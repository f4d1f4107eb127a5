/** The emitted Zig text, read back: what the reader of the table finds in it. */
module EmittedTable {
  import opened Strings
  import opened Tsv
  import opened BuildRegistry
  import opened EmitRegistry
  import opened ZigTable
  import opened EntryText
  import opened EmittedCode

  lemma {:induction false} StampNoBreak(lines: seq<string>, prefix: string)
    requires forall l :: l in lines ==> NoBreak(l)
    ensures NoBreak(OrUnknown(Stamp(lines, prefix)))
  {
    if lines != [] {
      var last := lines[|lines| - 1];
      assert last in lines;
      if StartsWith(last, prefix) {
        var t := AfterColon(last);
        assert forall c :: c in t ==> c in last;
        assert forall c :: c in Strip(t) ==> c in t;
      } else {
        StampNoBreak(lines[..|lines| - 1], prefix);
      }
    }
  }

  lemma {:induction false} EscapeEachNoBreak(s: string)
    requires '\n' !in s
    ensures '\n' !in EscapeEach(s)
  {
    if s != "" {
      assert forall c :: c in s[1..] ==> c in s;
      EscapeEachNoBreak(s[1..]);
      assert s[0] in s;
    }
  }

  lemma ZigStrNoBreak(s: string)
    requires '\n' !in s
    ensures '\n' !in ZigStr(s)
  {
    EscapedIsEach(s);
    EscapeEachNoBreak(s);
  }

  lemma TailNoBreak(text: string, sab: string, signature: string)
    requires '\n' !in text && '\n' !in sab && '\n' !in signature
    ensures '\n' !in TailText(text, sab, signature)
  {
    ZigStrNoBreak(signature);
    var s1 := ", .signature = " + (ZigStr(signature) + " },");
    assert '\n' !in s1;
    assert '\n' !in ", .sab = ." + (sab + s1);
  }

  lemma EntryLineNoBreak(row: Row)
    requires HasColumns(row, ENTRY_COLUMNS) && FieldRow(row)
    ensures '\n' !in EntryLine(row)
  {
    EntryParts(row);
    var tail := TailText(row["text"], row["sab"], row["signature"]);
    assert Field(row["text"]) && Field(row["sab"]) && Field(row["signature"]);
    TailNoBreak(row["text"], row["sab"], row["signature"]);
    ZigStrNoBreak(row["symbol"]);
    ZigStrNoBreak(row["class"]);
    assert '\n' !in ", .class = " + (ZigStr(row["class"]) + tail);
  }

  lemma DataNoBreak(data: seq<string>, rows: seq<Row>, entryLines: seq<string>)
    requires forall l :: l in data ==> NoBreak(l)
    requires rows == TableOf(data).rows && EntryLines(rows) == Success(entryLines)
    ensures forall l :: l in entryLines ==> '\n' !in l
  {
    EntryLinesAt(rows);
    forall l | l in entryLines ensures '\n' !in l {
      var i :| 0 <= i < |rows| && entryLines[i] == l;
      assert rows[i] in rows;
      ParsedRowFields(data, rows[i]);
      EntryLineNoBreak(rows[i]);
    }
  }

  /** The stamps that the emitter recovers can stand in its comment. */
  ghost predicate Showable(registryText: string) {
    var lines := FileLines(registryText);
    Presentable(OrUnknown(Stamp(lines, PLUGIN_STAMP))) && Presentable(OrUnknown(Stamp(lines, STD_STAMP)))
  }

  lemma DecodeLines(out: seq<string>, list: seq<string>, shown: bool)
    requires out != [] && forall l :: l in out ==> '\n' !in l
    requires ReadDeclarations(out) == if shown then Some(list) else None
    ensures Decode(Join("\n", out)) == if shown then DecodeList(list) else None
  {
    SplitJoin(out, '\n');
  }

  lemma DecodeListed(list: seq<string>, entries: Option<(seq<Entry>, seq<string>)>, code: seq<string>)
    requires ReadList(list, "};", ReadEntry) == entries
    requires entries.Some? ==> Code(entries.value.1) == Some(code) && ReadLookup(code) == Some(("symbol", [""])) && Code([""]) == Some([])
    ensures DecodeList(list) == if entries.Some? then Some(ZigModule(entries.value.0, "symbol")) else None
  {
  }

  lemma ListRead(rows: seq<Row>)
    requires EntryLines(rows).Success?
    ensures DecodeList(EntryLines(rows).value + (["};"] + POSTAMBLE[1..]))
         == if forall row :: row in rows ==> Printed(row) then Some(ZigModule(EntriesOf(rows), "symbol")) else None
  {
    var after := POSTAMBLE[1..];
    var list := EntryLines(rows).value + (["};"] + after);
    EntriesRoundTrip(rows, after);
    LookupRead();
    DecodeListed(list, ReadList(list, "};", ReadEntry), POSTAMBLE[2..8] + [""]);
  }

  /** The whole list of lines, read back: the entries, if each of the three parts can be read. */
  lemma LinesRead(before: seq<string>, rows: seq<Row>, shown: bool)
    requires EntryLines(rows).Success? && forall l :: l in before || l in EntryLines(rows).value ==> '\n' !in l
    requires var list := EntryLines(rows).value + (["};"] + POSTAMBLE[1..]);
      ReadDeclarations(before + ([ENTRIES_OPEN] + list)) == if shown then Some(list) else None
    ensures Decode(Join("\n", before + [ENTRIES_OPEN] + EntryLines(rows).value + POSTAMBLE))
         == if shown && forall row :: row in rows ==> Printed(row) then Some(ZigModule(EntriesOf(rows), "symbol")) else None
  {
    var out := before + [ENTRIES_OPEN] + EntryLines(rows).value + POSTAMBLE;
    PostambleNoBreak();
    OpenNoBreak();
    PostambleOpens();
    LinesApart(before, [ENTRIES_OPEN], EntryLines(rows).value, ["};"], POSTAMBLE[1..]);
    DecodeLines(out, EntryLines(rows).value + (["};"] + POSTAMBLE[1..]), shown);
    ListRead(rows);
  }

  lemma OpenNoBreak()
    ensures '\n' !in ENTRIES_OPEN
  {
  }

  lemma PostambleOpens()
    ensures POSTAMBLE == ["};"] + POSTAMBLE[1..]
  {
  }

  lemma LinesApart<T>(a: seq<T>, b: seq<T>, c: seq<T>, d: seq<T>, e: seq<T>)
    ensures a + b + c + (d + e) == a + (b + (c + (d + e)))
  {
  }

  /** Reading the emitted text gives back the rows of the registry, in order, and a `lookup` that compares symbols: all of
      them if every row can be printed and the stamps can be shown, and a rejected text otherwise. */
  lemma TableRoundTrip(registryText: string)
    ensures var rows := TableOf(DataLines(registryText)).rows;
      && (Emitted(registryText).Success? <==> forall row :: row in rows ==> HasColumns(row, ENTRY_COLUMNS))
      && (Emitted(registryText).Success? ==>
            Decode(Emitted(registryText).value)
            == if Showable(registryText) && forall row :: row in rows ==> Printed(row)
               then Some(ZigModule(EntriesOf(rows), "symbol")) else None)
  {
    var rows := TableOf(DataLines(registryText)).rows;
    if EntryLines(rows).Success? {
      var lines := FileLines(registryText);
      var plugin, stdHead := OrUnknown(Stamp(lines, PLUGIN_STAMP)), OrUnknown(Stamp(lines, STD_STAMP));
      StampNoBreak(lines, PLUGIN_STAMP);
      StampNoBreak(lines, STD_STAMP);
      DataNoBreak(DataLines(registryText), rows, EntryLines(rows).value);
      PreambleNoBreak(plugin, stdHead);
      DeclarationsRead(plugin, stdHead, EntryLines(rows).value + (["};"] + POSTAMBLE[1..]));
      LinesRead(Preamble(plugin, stdHead), rows, Presentable(plugin) && Presentable(stdHead));
    }
  }

  lemma ParsedRowFields(data: seq<string>, row: Row)
    requires forall l :: l in data ==> NoBreak(l)
    requires row in TableOf(data).rows
    ensures FieldRow(row)
  {
    var header := Split(data[0], '\t');
    var i :| 0 <= i < |data[1..]| && row == ParseRow(header, data[1..][i]);
    assert data[1..][i] in data;
    ParseRowFields(header, data[1..][i]);
  }
}
