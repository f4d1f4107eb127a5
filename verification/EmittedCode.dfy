/** The fixed lines of the emitted Zig text, read back: the declarations before the entries, and the code of `lookup`. */
module EmittedCode {
  import opened Strings
  import opened Tsv
  import opened DeclaredNames
  import opened EmitRegistry
  import opened ZigTable
  import opened EntryText

  // ----- lines of code and other lines -----

  lemma CodeLine(line: string, rest: seq<string>)
    requires line != "" && !StartsWith(line, "//")
    ensures Code([line] + rest) == Some([line] + rest)
  {
  }

  lemma CodeBlank(rest: seq<string>)
    ensures Code([""] + rest) == Code(rest)
  {
    assert ([""] + rest)[1..] == rest;
  }

  lemma CodeComment(line: string, rest: seq<string>)
    requires StartsWith(line, "//")
    ensures Code([line] + rest) == if Presentable(line) then Code(rest) else None
  {
    assert ([line] + rest)[1..] == rest;
  }

  /** The next line of code is the one that is asked for. */
  lemma CodeFound(line: string, rest: seq<string>)
    requires line != "" && !StartsWith(line, "//")
    ensures AfterCode([line] + rest, line) == Some(rest)
    ensures AfterCode([""] + ([line] + rest), line) == Some(rest)
  {
    CodeLine(line, rest);
    CodeBlank([line] + rest);
    assert ([line] + rest)[1..] == rest;
  }

  // ----- comments -----

  lemma NoBreakConcat(a: string, b: string)
    ensures NoBreak(a + b) <==> NoBreak(a) && NoBreak(b)
  {
    if NoBreak(a + b) {
      assert forall c :: c in a ==> c in a + b;
      assert forall c :: c in b ==> c in a + b;
    }
  }

  lemma PresentableConcat(a: string, b: string)
    ensures Presentable(a + b) <==> Presentable(a) && Presentable(b)
  {
    if Presentable(a + b) {
      assert forall c :: c in a ==> c in a + b;
      assert forall c :: c in b ==> c in a + b;
    }
  }

  /** A comment line of fixed text. */
  ghost predicate Remark(l: string) {
    '\n' !in l && StartsWith(l, "//") && Presentable(l)
  }

  lemma RemarkOf(l: string, a: string, b: string)
    requires l == a + b && '\n' !in l && Presentable(a) && Presentable(b) && |a| > 2 && a[0] == '/' && a[1] == '/'
    ensures Remark(l)
  {
    PresentableConcat(a, b);
    assert l[..2] == ['/', '/'];
  }

  /** A remark in three pieces. */
  lemma RemarkOfThree(l: string, a: string, b: string, c: string)
    requires l == a + b + c && '\n' !in l && Presentable(a) && Presentable(b) && Presentable(c)
    requires |a| > 2 && a[0] == '/' && a[1] == '/'
    ensures Remark(l)
  {
    PresentableConcat(a, b);
    RemarkOf(l, a + b, c);
  }

  lemma GeneratedByPlain()
    ensures '\n' !in GENERATED_BY
  {
  }

  lemma GeneratedByPieces()
    ensures Presentable("//! sab_audit_registry.zig — ") && Presentable("GENERATED by tools/sab_audit/")
  {
  }

  lemma GeneratedByLast()
    ensures Presentable("emit_registry_zig.py")
  {
  }

  lemma GeneratedByLine()
    ensures Remark(GENERATED_BY)
  {
    GeneratedByPlain();
    GeneratedByPieces();
    GeneratedByLast();
    RemarkOfThree(GENERATED_BY, "//! sab_audit_registry.zig — ", "GENERATED by tools/sab_audit/", "emit_registry_zig.py");
  }

  lemma GeneratedFromPlain()
    ensures '\n' !in GENERATED_FROM
  {
  }

  lemma GeneratedFromPieces()
    ensures Presentable("//! from tools/sab_audit/") && Presentable("registry.tsv (probe-matrix ")
  {
  }

  lemma GeneratedFromLast()
    ensures Presentable("output).")
  {
  }

  lemma GeneratedFromLine()
    ensures Remark(GENERATED_FROM)
  {
    GeneratedFromPlain();
    GeneratedFromPieces();
    GeneratedFromLast();
    RemarkOfThree(GENERATED_FROM, "//! from tools/sab_audit/", "registry.tsv (probe-matrix ", "output).");
  }

  lemma NoEditPlain()
    ensures '\n' !in NO_EDIT
  {
  }

  lemma NoEditPieces()
    ensures Presentable("//! Do not edit by hand: ") && Presentable("regenerate with ")
  {
  }

  lemma NoEditLast()
    ensures Presentable("tools/sab_audit/regen.sh.")
  {
  }

  lemma NoEditLine()
    ensures Remark(NO_EDIT)
  {
    NoEditPlain();
    NoEditPieces();
    NoEditLast();
    RemarkOfThree(NO_EDIT, "//! Do not edit by hand: ", "regenerate with ", "tools/sab_audit/regen.sh.");
  }

  lemma StampOpening()
    ensures NoBreak("//! Registry stamps: ") && Presentable("//! Registry stamps: ")
  {
  }

  lemma PluginTag()
    ensures NoBreak("plugin_head=") && Presentable("plugin_head=")
  {
  }

  lemma StdTag()
    ensures NoBreak(" sa_std_head=") && Presentable(" sa_std_head=")
  {
  }

  lemma StampCommentLine(plugin: string, stdHead: string)
    requires NoBreak(plugin) && NoBreak(stdHead)
    ensures '\n' !in StampComment(plugin, stdHead) && StartsWith(StampComment(plugin, stdHead), "//")
    ensures Presentable(StampComment(plugin, stdHead)) <==> Presentable(plugin) && Presentable(stdHead)
  {
    StampOpening();
    PluginTag();
    StdTag();
    StampParts("//! Registry stamps: ", "plugin_head=", plugin, " sa_std_head=", stdHead);
    assert StampComment(plugin, stdHead)[..2] == "//";
  }

  lemma StampParts(a: string, b: string, plugin: string, c: string, stdHead: string)
    requires NoBreak(a) && NoBreak(b) && NoBreak(c) && NoBreak(plugin) && NoBreak(stdHead)
    requires Presentable(a) && Presentable(b) && Presentable(c)
    ensures NoBreak(a + (b + (plugin + (c + stdHead))))
    ensures Presentable(a + (b + (plugin + (c + stdHead)))) <==> Presentable(plugin) && Presentable(stdHead)
  {
    var tail := c + stdHead;
    NoBreakConcat(c, stdHead);
    NoBreakConcat(plugin, tail);
    NoBreakConcat(b, plugin + tail);
    NoBreakConcat(a, b + (plugin + tail));
    PresentableConcat(c, stdHead);
    PresentableConcat(plugin, tail);
    PresentableConcat(b, plugin + tail);
    PresentableConcat(a, b + (plugin + tail));
  }

  lemma Unstack<T>(a: T, b: T, c: T, d: T, rest: seq<T>)
    ensures [a, b, c, d] + rest == [a] + ([b] + ([c] + ([d] + rest)))
  {
  }

  /** The reader passes over the comments, if the stamps in the last one can be shown. */
  lemma CommentsSkipped(plugin: string, stdHead: string, rest: seq<string>)
    requires NoBreak(plugin) && NoBreak(stdHead)
    ensures forall l :: l in Comments(plugin, stdHead) ==> '\n' !in l
    ensures Code(Comments(plugin, stdHead) + rest)
         == if Presentable(plugin) && Presentable(stdHead) then Code(rest) else None
  {
    GeneratedByLine();
    GeneratedFromLine();
    NoEditLine();
    var stamps := StampComment(plugin, stdHead);
    StampCommentLine(plugin, stdHead);
    Unstack(GENERATED_BY, GENERATED_FROM, NO_EDIT, stamps, rest);
    CodeComment(GENERATED_BY, [GENERATED_FROM] + ([NO_EDIT] + ([stamps] + rest)));
    CodeComment(GENERATED_FROM, [NO_EDIT] + ([stamps] + rest));
    CodeComment(NO_EDIT, [stamps] + rest);
    CodeComment(stamps, rest);
  }

  // ----- the enum -----

  ghost predicate Name(s: string) {
    s != "" && forall c :: c in s ==> IsNameChar(c)
  }

  lemma NameRead(name: string, rest: string)
    requires Name(name) && (rest == "" || !IsNameChar(rest[0]))
    ensures ReadName(name + rest) == Some((name, rest))
  {
    NameRun(name, rest);
    assert (name + rest)[..|name|] == name && (name + rest)[|name|..] == rest;
  }

  lemma MoreNames(name: string, more: string, names: seq<string>, after: string)
    requires Name(name) && ReadNames(more) == Some((names, after))
    ensures ReadNames(name + (", " + more)) == Some(([name] + names, after))
  {
    NameRead(name, ", " + more);
    ExpectSame(", ", more);
  }

  lemma LastName(name: string, rest: string)
    requires Name(name) && rest != "" && rest[0] == ' '
    ensures ReadNames(name + rest) == Some(([name], rest))
  {
    NameRead(name, rest);
  }

  lemma MemberNames()
    ensures Name("ok") && Name("fail") && Name("checkfail") && Name("decl")
  {
  }

  lemma MembersText()
    ensures "ok, fail, checkfail, decl };" == "ok" + (", " + ("fail" + (", " + ("checkfail" + (", " + ("decl" + " };"))))))
  {
  }

  lemma FourNames(a: string, b: string, c: string, d: string)
    requires Name(a) && Name(b) && Name(c) && Name(d)
    ensures ReadNames(a + (", " + (b + (", " + (c + (", " + (d + " };"))))))) == Some(([a] + ([b] + ([c] + [d])), " };"))
  {
    var three := d + " };";
    var two := c + (", " + three);
    LastName(d, " };");
    MoreNames(c, three, [d], " };");
    MoreNames(b, two, [c] + [d], " };");
    MoreNames(a, b + (", " + two), [b] + ([c] + [d]), " };");
  }

  lemma MembersRead(line: string)
    requires line == "ok" + (", " + ("fail" + (", " + ("checkfail" + (", " + ("decl" + " };"))))))
    ensures ReadNames(line) == Some((["ok"] + (["fail"] + (["checkfail"] + ["decl"])), " };"))
  {
    MemberNames();
    FourNames("ok", "fail", "checkfail", "decl");
  }

  lemma FourMembers()
    ensures ["ok"] + (["fail"] + (["checkfail"] + ["decl"])) == ["ok", "fail", "checkfail", "decl"]
  {
  }

  lemma EnumRead(line: string, members: string, names: seq<string>)
    requires line == "pub const Status = enum { " + members && ReadNames(members) == Some((names, " };"))
    ensures ReadEnumMembers(line) == Some(names)
  {
    ExpectSame("pub const Status = enum { ", members);
  }

  lemma EnumLine()
    ensures IMPORTS[3] == "pub const Status = enum { " + "ok, fail, checkfail, decl };"
  {
  }

  lemma StatusEnumRead()
    ensures ReadEnumMembers(IMPORTS[3]) == Some(["ok", "fail", "checkfail", "decl"])
  {
    MembersText();
    MembersRead("ok, fail, checkfail, decl };");
    EnumLine();
    FourMembers();
    EnumRead(IMPORTS[3], "ok, fail, checkfail, decl };", ["ok", "fail", "checkfail", "decl"]);
  }

  lemma ImportsNoBreak()
    ensures forall l :: l in IMPORTS ==> '\n' !in l
  {
    assert '\n' !in IMPORTS[1];
    assert '\n' !in IMPORTS[3];
    forall l | l in IMPORTS ensures '\n' !in l {
      var i :| 0 <= i < 5 && IMPORTS[i] == l;
    }
  }

  lemma ImportsAre()
    ensures IMPORTS == [""] + (["const std = @import(\"std\");"] + ([""] + ([IMPORTS[3]] + [""])))
    ensures IMPORTS[3] != "" && !StartsWith(IMPORTS[3], "//")
  {
    assert IMPORTS[3][0] == 'p';
  }

  // ----- the struct -----

  lemma FieldRead(name: string, kind: string, line: string)
    requires Name(name) && line == "    " + (name + (": " + (kind + ",")))
    ensures ReadField(line) == Some((name, kind))
  {
    ExpectSame("    ", name + (": " + (kind + ",")));
    NameRead(name, ": " + (kind + ","));
    ExpectSame(": ", kind + ",");
    assert (kind + ",")[..|kind|] == kind;
  }

  lemma FieldNames()
    ensures Name("symbol") && Name("class") && Name("text") && Name("sab") && Name("signature")
  {
  }

  lemma TextFields()
    ensures ENTRY_TYPE[1] == "    " + ("symbol" + (": " + ("[]const u8" + ",")))
    ensures ENTRY_TYPE[2] == "    " + ("class" + (": " + ("[]const u8" + ",")))
  {
  }

  lemma StatusFields()
    ensures ENTRY_TYPE[3] == "    " + ("text" + (": " + ("Status" + ",")))
    ensures ENTRY_TYPE[4] == "    " + ("sab" + (": " + ("Status" + ",")))
  {
  }

  lemma SignatureField()
    ensures ENTRY_TYPE[5] == "    " + ("signature" + (": " + ("[]const u8" + ",")))
  {
  }

  lemma FieldsRead()
    ensures ReadField(ENTRY_TYPE[1]) == Some(("symbol", "[]const u8")) && ReadField(ENTRY_TYPE[2]) == Some(("class", "[]const u8"))
    ensures ReadField(ENTRY_TYPE[3]) == Some(("text", "Status")) && ReadField(ENTRY_TYPE[4]) == Some(("sab", "Status"))
    ensures ReadField(ENTRY_TYPE[5]) == Some(("signature", "[]const u8"))
  {
    FieldNames();
    TextFields();
    StatusFields();
    SignatureField();
    FieldRead("symbol", "[]const u8", ENTRY_TYPE[1]);
    FieldRead("class", "[]const u8", ENTRY_TYPE[2]);
    FieldRead("text", "Status", ENTRY_TYPE[3]);
    FieldRead("sab", "Status", ENTRY_TYPE[4]);
    FieldRead("signature", "[]const u8", ENTRY_TYPE[5]);
  }

  lemma TextFieldsNoBreak()
    ensures '\n' !in ENTRY_TYPE[0] && '\n' !in ENTRY_TYPE[1] && '\n' !in ENTRY_TYPE[2]
  {
  }

  lemma StatusFieldsNoBreak()
    ensures '\n' !in ENTRY_TYPE[3] && '\n' !in ENTRY_TYPE[4] && '\n' !in ENTRY_TYPE[5]
  {
  }

  lemma StructEndNoBreak()
    ensures '\n' !in ENTRY_TYPE[6] && '\n' !in ENTRY_TYPE[7]
  {
  }

  lemma EntryTypeNoBreak()
    ensures forall l :: l in ENTRY_TYPE ==> '\n' !in l
  {
    TextFieldsNoBreak();
    StatusFieldsNoBreak();
    StructEndNoBreak();
    forall l | l in ENTRY_TYPE ensures '\n' !in l {
      var i :| 0 <= i < 8 && ENTRY_TYPE[i] == l;
    }
  }

  ghost predicate Reads(line: string, field: (string, string)) {
    line != "};" && ReadField(line) == Some(field)
  }

  lemma FiveFields(lines: seq<string>, fields: seq<(string, string)>, rest: seq<string>)
    requires |lines| == |fields| && forall i :: 0 <= i < |lines| ==> Reads(lines[i], fields[i])
    ensures ReadList(lines + (["};"] + rest), "};", ReadField) == Some((fields, rest))
  {
    forall i | 0 <= i < |lines| ensures lines[i] != "};" && ReadField(lines[i]) == Some(fields[i]) {
      assert Reads(lines[i], fields[i]);
    }
    ReadListAll(lines, fields, "};", ReadField, rest);
  }

  const ENTRY_FIELDS: seq<(string, string)> :=
    [("symbol", "[]const u8"), ("class", "[]const u8"), ("text", "Status"), ("sab", "Status"), ("signature", "[]const u8")]

  lemma EachReads(a: string, b: string, c: string, d: string, e: string, i: nat)
    requires Reads(a, ENTRY_FIELDS[0]) && Reads(b, ENTRY_FIELDS[1]) && Reads(c, ENTRY_FIELDS[2]) && Reads(d, ENTRY_FIELDS[3])
    requires Reads(e, ENTRY_FIELDS[4]) && i < 5
    ensures Reads([a, b, c, d, e][i], ENTRY_FIELDS[i])
  {
  }

  lemma FieldLines()
    ensures ENTRY_TYPE[1..6] == [ENTRY_TYPE[1], ENTRY_TYPE[2], ENTRY_TYPE[3], ENTRY_TYPE[4], ENTRY_TYPE[5]]
    ensures ENTRY_TYPE[1][0] == ENTRY_TYPE[2][0] == ENTRY_TYPE[3][0] == ENTRY_TYPE[4][0] == ENTRY_TYPE[5][0] == ' '
  {
  }

  lemma FieldAt(i: nat)
    requires i < 5
    ensures Reads(ENTRY_TYPE[1..6][i], ENTRY_FIELDS[i])
  {
    FieldsRead();
    FieldLines();
    EachReads(ENTRY_TYPE[1], ENTRY_TYPE[2], ENTRY_TYPE[3], ENTRY_TYPE[4], ENTRY_TYPE[5], i);
  }

  lemma StructLines(rest: seq<string>)
    ensures ENTRY_TYPE + rest == ["pub const Entry = struct {"] + (ENTRY_TYPE[1..6] + (["};"] + ([""] + rest)))
    ensures "pub const Entry = struct {" != "" && !StartsWith("pub const Entry = struct {", "//")
  {
    assert ENTRY_TYPE[0] == "pub const Entry = struct {" && ENTRY_TYPE[6] == "};" && ENTRY_TYPE[7] == "";
    assert "pub const Entry = struct {"[0] == 'p';
  }

  /** The struct is read as its five fields. */
  lemma StructRead(rest: seq<string>)
    ensures AfterCode(ENTRY_TYPE + rest, "pub const Entry = struct {") == Some(ENTRY_TYPE[1..6] + (["};"] + ([""] + rest)))
    ensures ReadList(ENTRY_TYPE[1..6] + (["};"] + ([""] + rest)), "};", ReadField) == Some((ENTRY_FIELDS, [""] + rest))
  {
    StructLines(rest);
    CodeFound("pub const Entry = struct {", ENTRY_TYPE[1..6] + (["};"] + ([""] + rest)));
    forall i | 0 <= i < 5 ensures Reads(ENTRY_TYPE[1..6][i], ENTRY_FIELDS[i]) {
      FieldAt(i);
    }
    FiveFields(ENTRY_TYPE[1..6], ENTRY_FIELDS, [""] + rest);
  }

  // ----- all declarations -----

  lemma StdImportIsCode()
    ensures "const std = @import(\"std\");" != "" && !StartsWith("const std = @import(\"std\");", "//")
  {
    assert "const std = @import(\"std\");"[0] == 'c';
  }

  lemma EntriesOpenIsCode()
    ensures ENTRIES_OPEN == "pub const entries: []const Entry = &.{" && ENTRIES_OPEN != "" && !StartsWith(ENTRIES_OPEN, "//")
  {
    assert ENTRIES_OPEN[0] == 'p';
  }

  lemma StructOpens(rest: seq<string>)
    ensures AfterCode([""] + (ENTRY_TYPE + rest), "pub const Entry = struct {") == AfterCode(ENTRY_TYPE + rest, "pub const Entry = struct {")
  {
    CodeBlank(ENTRY_TYPE + rest);
  }

  lemma DeclarationsFrom(plugin: string, stdHead: string, rest: seq<string>)
    ensures Preamble(plugin, stdHead) + rest == Comments(plugin, stdHead) + (IMPORTS + (ENTRY_TYPE + rest))
  {
  }

  lemma ImportsRead(rest: seq<string>)
    ensures AfterCode(IMPORTS + rest, "const std = @import(\"std\");") == Some([""] + ([IMPORTS[3]] + ([""] + rest)))
    ensures Code([""] + ([IMPORTS[3]] + ([""] + rest))) == Some([IMPORTS[3]] + ([""] + rest))
  {
    ImportsAre();
    StdImportIsCode();
    var std := "const std = @import(\"std\");";
    assert IMPORTS + rest == [""] + ([std] + ([""] + ([IMPORTS[3]] + ([""] + rest))));
    CodeFound(std, [""] + ([IMPORTS[3]] + ([""] + rest)));
    CodeBlank([IMPORTS[3]] + ([""] + rest));
    CodeLine(IMPORTS[3], [""] + rest);
  }

  lemma DeclarationsThrough(lines: seq<string>, l1: seq<string>, l2: seq<string>, l3: seq<string>, l4: seq<string>, list: seq<string>)
    requires AfterCode(lines, "const std = @import(\"std\");") == Some(l1)
    requires Code(l1) == Some(l2) && l2 != [] && ReadEnumMembers(l2[0]) == Some(["ok", "fail", "checkfail", "decl"])
    requires AfterCode(l2[1..], "pub const Entry = struct {") == Some(l3)
    requires ReadList(l3, "};", ReadField) == Some((ENTRY_FIELDS, l4))
    requires AfterCode(l4, "pub const entries: []const Entry = &.{") == Some(list)
    ensures ReadDeclarations(lines) == Some(list)
  {
    assert IsStatusEnum(["ok", "fail", "checkfail", "decl"]);
    assert IsEntryStruct(ENTRY_FIELDS);
  }

  lemma ListFound(list: seq<string>)
    ensures AfterCode([""] + ([ENTRIES_OPEN] + list), "pub const entries: []const Entry = &.{") == Some(list)
  {
    EntriesOpenIsCode();
    CodeFound(ENTRIES_OPEN, list);
  }

  lemma AfterImports(list: seq<string>)
    ensures ReadDeclarations(IMPORTS + (ENTRY_TYPE + ([ENTRIES_OPEN] + list))) == Some(list)
  {
    var rest := [ENTRIES_OPEN] + list;
    ImportsRead(ENTRY_TYPE + rest);
    StatusEnumRead();
    StructOpens(rest);
    StructRead(rest);
    ListFound(list);
    var l1 := [""] + ([IMPORTS[3]] + ([""] + (ENTRY_TYPE + rest)));
    var l2 := [IMPORTS[3]] + ([""] + (ENTRY_TYPE + rest));
    FirstAndRest(IMPORTS[3], [""] + (ENTRY_TYPE + rest));
    DeclarationsThrough(IMPORTS + (ENTRY_TYPE + rest), l1, l2, ENTRY_TYPE[1..6] + (["};"] + ([""] + rest)), [""] + rest, list);
  }

  lemma FirstAndRest<T>(x: T, xs: seq<T>)
    ensures ([x] + xs)[0] == x && ([x] + xs)[1..] == xs
  {
  }

  lemma SameCode(lines: seq<string>, other: seq<string>)
    ensures Code(lines) == Code(other) ==> ReadDeclarations(lines) == ReadDeclarations(other)
    ensures Code(lines) == None ==> ReadDeclarations(lines) == None
  {
  }

  /** The reader gets from the first line to the list of entries, if the stamps can be shown. */
  lemma DeclarationsRead(plugin: string, stdHead: string, list: seq<string>)
    requires NoBreak(plugin) && NoBreak(stdHead)
    ensures ReadDeclarations(Preamble(plugin, stdHead) + ([ENTRIES_OPEN] + list))
         == if Presentable(plugin) && Presentable(stdHead) then Some(list) else None
  {
    var rest := IMPORTS + (ENTRY_TYPE + ([ENTRIES_OPEN] + list));
    DeclarationsFrom(plugin, stdHead, [ENTRIES_OPEN] + list);
    CommentsSkipped(plugin, stdHead, rest);
    SameCode(Comments(plugin, stdHead) + rest, rest);
    AfterImports(list);
  }

  lemma PreambleNoBreak(plugin: string, stdHead: string)
    requires NoBreak(plugin) && NoBreak(stdHead)
    ensures forall l :: l in Preamble(plugin, stdHead) ==> '\n' !in l
  {
    CommentsSkipped(plugin, stdHead, []);
    ImportsNoBreak();
    EntryTypeNoBreak();
  }

  // ----- lookup -----

  lemma BetweenRead(front: string, name: string, back: string, line: string)
    requires Name(name) && back != "" && !IsNameChar(back[0]) && line == front + (name + back)
    ensures ReadBetween(line, front, back) == Some(name)
  {
    ExpectSame(front, name + back);
    NameRead(name, back);
  }

  lemma LookupNames()
    ensures Name("symbol") && Name("entry") && "entry" != "symbol"
  {
  }

  lemma LookupHead()
    ensures POSTAMBLE[2] == "pub fn lookup(" + ("symbol" + ": []const u8) ?Entry {")
  {
  }

  lemma LookupLoop()
    ensures POSTAMBLE[3] == "    for (entries) |" + ("entry" + "| {")
  {
  }

  lemma LookupTest()
    ensures POSTAMBLE[4] == "        if (std.mem.eql(u8, " + ("entry" + ("." + ("symbol" + (", " + ("symbol" + (")) return " + ("entry" + ";")))))))
  {
    assert "entry.symbol, symbol)) " == "entry" + ("." + ("symbol" + (", " + ("symbol" + ")) "))));
    assert "entry" + ("." + ("symbol" + (", " + ("symbol" + ")) ")))) + "return entry;"
        == "entry" + ("." + ("symbol" + (", " + ("symbol" + (")) return " + ("entry" + ";"))))));
  }

  lemma ComparisonRead()
    ensures ReadComparison(POSTAMBLE[4]) == Some(Comparison("entry", "symbol", "symbol", "entry"))
  {
    LookupNames();
    LookupTest();
    var s6 := ")) return " + ("entry" + ";");
    var s4 := ", " + ("symbol" + s6);
    var s2 := "." + ("symbol" + s4);
    ExpectSame("        if (std.mem.eql(u8, ", "entry" + s2);
    NameRead("entry", s2);
    ExpectSame(".", "symbol" + s4);
    NameRead("symbol", s4);
    ExpectSame(", ", "symbol" + s6);
    NameRead("symbol", s6);
    BetweenRead(")) return ", "entry", ";", s6);
  }

  lemma LookupEnds()
    ensures POSTAMBLE[5] == "    }" && POSTAMBLE[6] == "    return null;" && POSTAMBLE[7] == "}" && POSTAMBLE[8] == ""
  {
  }

  lemma LookupFrom(lines: seq<string>, rest: seq<string>)
    requires |lines| == 6
    requires ReadBetween(lines[0], "pub fn lookup(", ": []const u8) ?Entry {") == Some("symbol")
    requires ReadBetween(lines[1], "    for (entries) |", "| {") == Some("entry")
    requires ReadComparison(lines[2]) == Some(Comparison("entry", "symbol", "symbol", "entry"))
    requires lines[3] == "    }" && lines[4] == "    return null;" && lines[5] == "}"
    ensures ReadLookup(lines + rest) == Some(("symbol", rest))
  {
    var all := lines + rest;
    assert all[6..] == rest;
    assert all[0] == lines[0] && all[1] == lines[1] && all[2] == lines[2] && all[3] == lines[3] && all[4] == lines[4] && all[5] == lines[5];
    LookupNames();
  }

  lemma LookupLines()
    ensures ReadBetween(POSTAMBLE[2], "pub fn lookup(", ": []const u8) ?Entry {") == Some("symbol")
    ensures ReadBetween(POSTAMBLE[3], "    for (entries) |", "| {") == Some("entry")
  {
    LookupNames();
    LookupHead();
    LookupLoop();
    BetweenRead("pub fn lookup(", "symbol", ": []const u8) ?Entry {", POSTAMBLE[2]);
    BetweenRead("    for (entries) |", "entry", "| {", POSTAMBLE[3]);
  }

  lemma Slices(lines: seq<string>)
    requires |lines| == 9 && lines[1] == "" && lines[8] == ""
    ensures lines[1..] == [""] + (lines[2..8] + [""])
    ensures lines[2..8] == [lines[2]] + lines[3..8]
  {
  }

  lemma LookupOpens()
    ensures POSTAMBLE[2] != "" && !StartsWith(POSTAMBLE[2], "//")
  {
    assert POSTAMBLE[2][0] == 'p';
  }

  lemma PostambleAre()
    ensures POSTAMBLE[1..] == [""] + (POSTAMBLE[2..8] + [""])
    ensures POSTAMBLE[2..8] == [POSTAMBLE[2]] + POSTAMBLE[3..8]
    ensures POSTAMBLE[2] != "" && !StartsWith(POSTAMBLE[2], "//")
  {
    LookupEnds();
    LookupOpens();
    Slices(POSTAMBLE);
  }

  lemma LookupIsCode()
    ensures Code(POSTAMBLE[1..]) == Some(POSTAMBLE[2..8] + [""])
  {
    PostambleAre();
    var code := POSTAMBLE[2..8] + [""];
    CodeBlank(code);
    CodeLine(POSTAMBLE[2], POSTAMBLE[3..8] + [""]);
    Assoc([POSTAMBLE[2]], POSTAMBLE[3..8], [""]);
  }

  lemma NothingAfter()
    ensures Code([""]) == Some([])
  {
    assert [""] + [] == [""];
    CodeBlank([]);
  }

  lemma LookupAt()
    ensures |POSTAMBLE[2..8]| == 6
    ensures POSTAMBLE[2..8][0] == POSTAMBLE[2] && POSTAMBLE[2..8][1] == POSTAMBLE[3] && POSTAMBLE[2..8][2] == POSTAMBLE[4]
    ensures POSTAMBLE[2..8][3] == "    }" && POSTAMBLE[2..8][4] == "    return null;" && POSTAMBLE[2..8][5] == "}"
  {
    LookupEnds();
  }

  /** The code of `lookup` compares the symbols of the entries with its parameter. */
  lemma LookupRead()
    ensures Code(POSTAMBLE[1..]) == Some(POSTAMBLE[2..8] + [""])
    ensures ReadLookup(POSTAMBLE[2..8] + [""]) == Some(("symbol", [""]))
    ensures Code([""]) == Some([])
  {
    LookupIsCode();
    NothingAfter();
    LookupLines();
    ComparisonRead();
    LookupAt();
    LookupFrom(POSTAMBLE[2..8], [""]);
  }

  lemma PostambleNoBreak()
    ensures forall l :: l in POSTAMBLE ==> '\n' !in l
  {
    PostambleHeadNoBreak();
    PostambleTestNoBreak();
    PostambleEndNoBreak();
    forall l | l in POSTAMBLE ensures '\n' !in l {
      var i :| 0 <= i < 9 && POSTAMBLE[i] == l;
    }
  }

  lemma PostambleHeadNoBreak()
    ensures '\n' !in POSTAMBLE[0] && '\n' !in POSTAMBLE[1] && '\n' !in POSTAMBLE[2] && '\n' !in POSTAMBLE[3]
  {
  }

  lemma PostambleTestNoBreak()
    ensures '\n' !in POSTAMBLE[4]
  {
  }

  lemma PostambleEndNoBreak()
    ensures '\n' !in POSTAMBLE[5] && '\n' !in POSTAMBLE[6] && '\n' !in POSTAMBLE[7] && '\n' !in POSTAMBLE[8]
  {
  }
}
