/** A reference reader of the emitted Zig text: the declarations, the entries and the code of `lookup`. */
module ZigTable {
  import opened Strings
  import opened Tsv
  import opened DeclaredNames

  // ----- string literals -----

  /** Characters a Zig string literal may not hold unescaped. */
  predicate IsControl(c: char) {
    c < ' ' || c == (127 as char)
  }

  predicate Printable(s: string) {
    forall c :: c in s ==> !IsControl(c)
  }

  /** The reference reader of a literal's inside: the value, and what follows the closing quote. */
  function ReadInside(s: string): Option<(string, string)> {
    if s == "" || IsControl(s[0]) then None
    else if s[0] == '"' then Some(("", s[1..]))
    else if s[0] == '\\' then
      if |s| > 1 && (s[1] == '\\' || s[1] == '"') then
        match ReadInside(s[2..])
        case Some((value, rest)) => Some(([s[1]] + value, rest))
        case None => None
      else None
    else
      match ReadInside(s[1..])
      case Some((value, rest)) => Some(([s[0]] + value, rest))
      case None => None
  }

  function ReadLiteral(s: string): Option<(string, string)> {
    if s != "" && s[0] == '"' then ReadInside(s[1..]) else None
  }

  // ----- entries -----

  datatype Status = Ok | Fail | CheckFail | Decl

  datatype Entry = Entry(symbol: string, class_: string, text: Status, sab: Status, signature: string)

  /** The members of the printed enum. */
  function StatusOf(name: string): Option<Status> {
    if name == "ok" then Some(Ok)
    else if name == "fail" then Some(Fail)
    else if name == "checkfail" then Some(CheckFail)
    else if name == "decl" then Some(Decl)
    else None
  }

  function Expect(s: string, lit: string): Option<string> {
    if lit <= s then Some(s[|lit|..]) else None
  }

  function LetterLen(s: string): (k: nat)
    ensures k <= |s|
  {
    if s != "" && 'a' <= s[0] <= 'z' then 1 + LetterLen(s[1..]) else 0
  }

  function ReadStatus(s: string): Option<(Status, string)> {
    var k := LetterLen(s);
    match StatusOf(s[..k]) case Some(status) => Some((status, s[k..])) case None => None
  }

  /** A tag and the literal after it. */
  function ReadText(s: string, tag: string): Option<(string, string)> {
    match Expect(s, tag) case Some(t) => ReadLiteral(t) case None => None
  }

  function ReadEnum(s: string, tag: string): Option<(Status, string)> {
    match Expect(s, tag) case Some(t) => ReadStatus(t) case None => None
  }

  /** The statuses and the signature, up to the end of the line. */
  function ReadTail(s: string): Option<(Status, Status, string)> {
    match ReadEnum(s, ", .text = .") case None => None case Some((text, s1)) =>
    match ReadEnum(s1, ", .sab = .") case None => None case Some((sab, s2)) =>
    match ReadText(s2, ", .signature = ") case None => None case Some((signature, s3)) =>
    if s3 == " }," then Some((text, sab, signature)) else None
  }

  function ReadEntry(line: string): Option<Entry> {
    match ReadText(line, "    .{ .symbol = ") case None => None case Some((symbol, s1)) =>
    match ReadText(s1, ", .class = ") case None => None case Some((class_, s2)) =>
    match ReadTail(s2) case None => None case Some((text, sab, signature)) =>
    Some(Entry(symbol, class_, text, sab, signature))
  }

  /** Items, one a line, up to the closing line, and the lines after it. */
  function ReadList<T>(lines: seq<string>, close: string, read: string -> Option<T>): Option<(seq<T>, seq<string>)> {
    if lines == [] then None
    else if lines[0] == close then Some(([], lines[1..]))
    else
      match read(lines[0]) case None => None case Some(item) =>
      match ReadList(lines[1..], close, read) case None => None case Some((items, after)) => Some(([item] + items, after))
  }

  // ----- declarations -----

  /** A line of the text outside the literals: no control character but the tab, which a comment may hold. */
  predicate Presentable(line: string) {
    forall c :: c in line ==> !IsControl(c) || c == '\t'
  }

  /** The lines from the first one on that is neither blank nor a comment. */
  function Code(lines: seq<string>): Option<seq<string>> {
    if lines == [] then Some([])
    else if lines[0] == "" then Code(lines[1..])
    else if StartsWith(lines[0], "//") then (if Presentable(lines[0]) then Code(lines[1..]) else None)
    else Some(lines)
  }

  /** The lines after the next one of code, if that is `line`. */
  function AfterCode(lines: seq<string>, line: string): Option<seq<string>> {
    match Code(lines)
    case Some(code) => if code != [] && code[0] == line then Some(code[1..]) else None
    case None => None
  }

  function ReadName(s: string): Option<(string, string)> {
    var k := NameLen(s);
    if k == 0 then None else Some((s[..k], s[k..]))
  }

  /** Names with commas between them. */
  function ReadNames(s: string): Option<(seq<string>, string)>
    decreases |s|
  {
    match ReadName(s) case None => None case Some((name, rest)) =>
    match Expect(rest, ", ") case None => Some(([name], rest)) case Some(more) =>
    if |more| >= |s| then None
    else
      match ReadNames(more) case None => None case Some((names, after)) => Some(([name] + names, after))
  }

  function ReadEnumMembers(line: string): Option<seq<string>> {
    match Expect(line, "pub const Status = enum { ") case None => None case Some(s) =>
    match ReadNames(s) case None => None case Some((names, rest)) => if rest == " };" then Some(names) else None
  }

  /** A field of a struct: its name and its type. */
  function ReadField(line: string): Option<(string, string)> {
    match Expect(line, "    ") case None => None case Some(s) =>
    match ReadName(s) case None => None case Some((name, rest)) =>
    match Expect(rest, ": ") case None => None case Some(t) =>
    if EndsWith(t, ",") then Some((name, t[..|t| - 1])) else None
  }

  /** The members that the switch of the audit names, each once, and no other. */
  predicate IsStatusEnum(names: seq<string>) {
    |names| == 4 && "ok" in names && "fail" in names && "checkfail" in names && "decl" in names
  }

  /** The fields that the entries of the list have, in their order, and that the audit reads. */
  predicate IsEntryStruct(fields: seq<(string, string)>) {
    fields == [("symbol", "[]const u8"), ("class", "[]const u8"), ("text", "Status"), ("sab", "Status"), ("signature", "[]const u8")]
  }

  /** The lines of the list of entries and what follows, after the import, the enum and the struct. */
  function ReadDeclarations(lines: seq<string>): Option<seq<string>> {
    match AfterCode(lines, "const std = @import(\"std\");") case None => None case Some(l1) =>
    match Code(l1) case None => None case Some(l2) =>
    if l2 == [] then None
    else
      match ReadEnumMembers(l2[0]) case None => None case Some(names) =>
      if !IsStatusEnum(names) then None
      else
        match AfterCode(l2[1..], "pub const Entry = struct {") case None => None case Some(l3) =>
        match ReadList(l3, "};", ReadField) case None => None case Some((fields, l4)) =>
        if !IsEntryStruct(fields) then None
        else AfterCode(l4, "pub const entries: []const Entry = &.{")
  }

  // ----- the code of `lookup` -----

  /** The name between two texts, to the end of the line. */
  function ReadBetween(line: string, front: string, back: string): Option<string> {
    match Expect(line, front) case None => None case Some(s) =>
    match ReadName(s) case None => None case Some((name, rest)) => if rest == back then Some(name) else None
  }

  /** What the line in the loop compares and returns. */
  datatype Comparison = Comparison(subject: string, field: string, argument: string, result: string)

  function ReadComparison(line: string): Option<Comparison> {
    match Expect(line, "        if (std.mem.eql(u8, ") case None => None case Some(s1) =>
    match ReadName(s1) case None => None case Some((subject, s2)) =>
    match Expect(s2, ".") case None => None case Some(s3) =>
    match ReadName(s3) case None => None case Some((field, s4)) =>
    match Expect(s4, ", ") case None => None case Some(s5) =>
    match ReadName(s5) case None => None case Some((argument, s6)) =>
    match ReadBetween(s6, ")) return ", ";") case None => None case Some(result) =>
    Some(Comparison(subject, field, argument, result))
  }

  /** A loop over the entries that compares a text field of each with the parameter, returns the entry on a match, and
      null after the loop. */
  function ReadLookup(lines: seq<string>): Option<(string, seq<string>)> {
    if |lines| < 6 then None
    else
      match ReadBetween(lines[0], "pub fn lookup(", ": []const u8) ?Entry {") case None => None case Some(parameter) =>
      match ReadBetween(lines[1], "    for (entries) |", "| {") case None => None case Some(item) =>
      match ReadComparison(lines[2]) case None => None case Some(c) =>
      if && lines[3] == "    }" && lines[4] == "    return null;" && lines[5] == "}"
         && item != parameter && c.subject == item && c.argument == parameter && c.result == item
         && c.field in {"symbol", "class", "signature"}
      then Some((c.field, lines[6..])) else None
  }

  // ----- the whole text -----

  /** What the text declares: the entries, and the field that `lookup` compares. */
  datatype ZigModule = ZigModule(entries: seq<Entry>, field: string)

  function Decode(zig: string): Option<ZigModule> {
    match ReadDeclarations(Split(zig, '\n')) case None => None case Some(list) => DecodeList(list)
  }

  /** From the list of entries on. */
  function DecodeList(list: seq<string>): Option<ZigModule> {
    match ReadList(list, "};", ReadEntry) case None => None case Some((entries, after)) =>
    match Code(after) case None => None case Some(code) =>
    match ReadLookup(code) case None => None case Some((field, rest)) =>
    if Code(rest) == Some([]) then Some(ZigModule(entries, field)) else None
  }

  function TextField(e: Entry, field: string): string {
    if field == "symbol" then e.symbol else if field == "class" then e.class_ else e.signature
  }

  /** What the code of `lookup` answers: the first entry whose field is the symbol. */
  function Ask(zig: ZigModule, symbol: string): Option<Entry> {
    FirstWhere(zig.entries, zig.field, symbol)
  }

  function FirstWhere(entries: seq<Entry>, field: string, value: string): Option<Entry> {
    if entries == [] then None
    else if TextField(entries[0], field) == value then Some(entries[0])
    else FirstWhere(entries[1..], field, value)
  }

  /** The first entry with the symbol. */
  ghost predicate IsFirst(found: Option<Entry>, entries: seq<Entry>, symbol: string) {
    match found
    case None => forall e :: e in entries ==> e.symbol != symbol
    case Some(e) => exists i :: 0 <= i < |entries| && entries[i] == e && FirstAt(entries, symbol, i)
  }

  ghost predicate FirstAt(entries: seq<Entry>, symbol: string, i: nat)
    requires i < |entries|
  {
    entries[i].symbol == symbol && forall j :: 0 <= j < i ==> entries[j].symbol != symbol
  }

  lemma {:induction false} FirstBySymbol(entries: seq<Entry>, symbol: string)
    ensures IsFirst(FirstWhere(entries, "symbol", symbol), entries, symbol)
  {
    if entries != [] {
      var rest := entries[1..];
      assert entries == [entries[0]] + rest;
      FirstBySymbol(rest, symbol);
      if entries[0].symbol == symbol {
        assert FirstAt(entries, symbol, 0);
      } else if FirstWhere(rest, "symbol", symbol).Some? {
        var i :| 0 <= i < |rest| && rest[i] == FirstWhere(rest, "symbol", symbol).value && FirstAt(rest, symbol, i);
        forall j | 0 <= j < i + 1 ensures entries[j].symbol != symbol {
          assert j > 0 ==> rest[j - 1].symbol != symbol;
        }
        assert FirstAt(entries, symbol, i + 1);
      }
    }
  }
}
