/** String literals and entry lines: what is printed for a row is read back as that row. */
module EntryText {
  import opened Strings
  import opened Tsv
  import opened EmitRegistry
  import opened ZigTable

  // ----- string literals -----

  /** One character at a time, what the two replacements do together. */
  function EscapeEach(s: string): string {
    if s == "" then ""
    else (if s[0] == '\\' then "\\\\" else if s[0] == '"' then "\\\"" else [s[0]]) + EscapeEach(s[1..])
  }

  lemma {:induction false} ReplaceOne(c: char, s: string, pat: string, sub: string)
    requires |pat| == 1
    ensures Replace([c] + s, pat, sub) == (if pat[0] == c then sub else [c]) + Replace(s, pat, sub)
  {
    assert ([c] + s)[1..] == s;
    assert pat == [pat[0]];
    assert pat <= [c] + s <==> pat[0] == c;
  }

  lemma BackslashTwice(t: string)
    ensures Replace("\\\\" + t, "\"", "\\\"") == "\\\\" + Replace(t, "\"", "\\\"")
  {
    ReplaceOne('\\', ['\\'] + t, "\"", "\\\"");
    ReplaceOne('\\', t, "\"", "\\\"");
    Assoc(['\\'], ['\\'], t);
    Assoc(['\\'], ['\\'], Replace(t, "\"", "\\\""));
  }

  /** The replacements do not disturb each other. */
  lemma {:induction false} EscapedIsEach(s: string)
    ensures Escaped(s) == EscapeEach(s)
  {
    if s != "" {
      var t := s[1..];
      assert s == [s[0]] + t;
      ReplaceOne(s[0], t, "\\", "\\\\");
      var r := Replace(t, "\\", "\\\\");
      EscapedIsEach(t);
      if s[0] == '\\' {
        BackslashTwice(r);
      } else {
        ReplaceOne(s[0], r, "\"", "\\\"");
      }
    }
  }

  lemma ReadOneEscaped(c: char, tail: string)
    requires c == '\\' || c == '"'
    ensures ReadInside(['\\', c] + tail) == match ReadInside(tail)
      case Some((value, rest)) => Some(([c] + value, rest))
      case None => None
  {
    assert (['\\', c] + tail)[2..] == tail;
  }

  lemma ReadOnePlain(c: char, tail: string)
    requires c != '\\' && c != '"'
    ensures ReadInside([c] + tail) == if IsControl(c) then None else match ReadInside(tail)
      case Some((value, rest)) => Some(([c] + value, rest))
      case None => None
  {
    assert ([c] + tail)[1..] == tail;
  }

  /** The first unescaped quote is the closing one, and decoding inverts escaping. */
  lemma {:induction false} ReadEscaped(s: string, rest: string)
    ensures ReadInside(EscapeEach(s) + (['"'] + rest)) == if Printable(s) then Some((s, rest)) else None
  {
    if s == "" {
      assert EscapeEach(s) + (['"'] + rest) == ['"'] + rest;
    } else {
      var tail := EscapeEach(s[1..]) + (['"'] + rest);
      ReadEscaped(s[1..], rest);
      assert s == [s[0]] + s[1..];
      assert Printable(s) <==> !IsControl(s[0]) && Printable(s[1..]);
      if s[0] == '\\' || s[0] == '"' {
        Assoc(['\\', s[0]], EscapeEach(s[1..]), ['"'] + rest);
        ReadOneEscaped(s[0], tail);
      } else {
        Assoc([s[0]], EscapeEach(s[1..]), ['"'] + rest);
        ReadOnePlain(s[0], tail);
      }
    }
  }

  lemma ReadZigStr(s: string, rest: string)
    ensures ReadLiteral(ZigStr(s) + rest) == if Printable(s) then Some((s, rest)) else None
  {
    EscapedIsEach(s);
    var text := ZigStr(s) + rest;
    assert text[1..] == EscapeEach(s) + (['"'] + rest);
    ReadEscaped(s, rest);
  }

  /** Distinct strings have distinct literals, control characters or not. */
  lemma {:induction false} EscapedInjective(s: string, t: string)
    requires Escaped(s) == Escaped(t)
    ensures s == t
  {
    EscapedIsEach(s);
    EscapedIsEach(t);
    EscapeEachInjective(s, t);
  }

  lemma {:induction false} EscapeEachInjective(s: string, t: string)
    requires EscapeEach(s) == EscapeEach(t)
    ensures s == t
  {
    if s != "" && t != "" {
      var e := EscapeEach(s);
      assert s == [s[0]] + s[1..] && t == [t[0]] + t[1..];
      if s[0] == '\\' || s[0] == '"' {
        assert e[0] == '\\' && e[1] == s[0] && e[2..] == EscapeEach(s[1..]);
        assert t[0] == s[0] && e[2..] == EscapeEach(t[1..]);
      } else {
        assert e[0] == s[0] && e[1..] == EscapeEach(s[1..]);
        assert t[0] == s[0] && e[1..] == EscapeEach(t[1..]);
      }
      EscapeEachInjective(s[1..], t[1..]);
    }
  }

  // ----- entries -----

  ghost predicate KnownStatuses(row: Row) {
    HasColumns(row, ENTRY_COLUMNS) && StatusOf(row["text"]).Some? && StatusOf(row["sab"]).Some?
  }

  ghost function EntryOf(row: Row): Entry
    requires KnownStatuses(row)
  {
    Entry(row["symbol"], row["class"], StatusOf(row["text"]).value, StatusOf(row["sab"]).value, row["signature"])
  }

  ghost predicate PrintableRow(row: Row)
    requires KnownStatuses(row)
  {
    Printable(row["symbol"]) && Printable(row["class"]) && Printable(row["signature"])
  }

  lemma ExpectSame(lit: string, rest: string)
    ensures Expect(lit + rest, lit) == Some(rest)
  {
  }

  lemma ReadStatusName(name: string, rest: string)
    requires StatusOf(name).Some?
    requires rest != "" && rest[0] == ','
    ensures ReadStatus(name + rest) == Some((StatusOf(name).value, rest))
  {
    LetterRun(name, rest);
    assert (name + rest)[..|name|] == name && (name + rest)[|name|..] == rest;
  }

  lemma {:induction false} LetterRun(name: string, rest: string)
    requires forall c :: c in name ==> 'a' <= c <= 'z'
    requires rest != "" && !('a' <= rest[0] <= 'z')
    ensures LetterLen(name + rest) == |name|
  {
    if name == "" {
      assert name + rest == rest;
    } else {
      assert (name + rest)[1..] == name[1..] + rest;
      assert name[0] in name && forall c :: c in name[1..] ==> c in name;
      LetterRun(name[1..], rest);
    }
  }

  lemma ReadTextBack(tag: string, value: string, rest: string)
    ensures ReadText(tag + (ZigStr(value) + rest), tag) == if Printable(value) then Some((value, rest)) else None
  {
    ExpectSame(tag, ZigStr(value) + rest);
    ReadZigStr(value, rest);
  }

  lemma ReadEnumBack(tag: string, name: string, rest: string)
    requires StatusOf(name).Some? && rest != "" && rest[0] == ','
    ensures ReadEnum(tag + (name + rest), tag) == Some((StatusOf(name).value, rest))
  {
    ExpectSame(tag, name + rest);
    ReadStatusName(name, rest);
  }

  /** The row can be printed as an entry: its statuses are members of the enum, its literals hold no control character. */
  ghost predicate Printed(row: Row) {
    KnownStatuses(row) && PrintableRow(row)
  }

  /** In an escaped text every quote stands behind its backslash. */
  lemma {:induction false} QuoteIsEscaped(s: string, j: nat)
    requires j < |EscapeEach(s)| && EscapeEach(s)[j] == '"'
    ensures j > 0 && EscapeEach(s)[j - 1] == '\\'
  {
    var first := if s[0] == '\\' then "\\\\" else if s[0] == '"' then "\\\"" else [s[0]];
    assert EscapeEach(s) == first + EscapeEach(s[1..]);
    if j >= |first| {
      QuoteIsEscaped(s[1..], j - |first|);
    }
  }

  lemma {:induction false} NeverClosed(s: string)
    requires '"' !in s
    ensures ReadInside(s) == None
    decreases |s|
  {
    if s != "" {
      NeverClosed(s[1..]);
      if |s| > 1 {
        NeverClosed(s[2..]);
      }
    }
  }

  /** A literal does not run past a quote that no backslash stands before. */
  lemma {:induction false} StopsBefore(p: string, e: string)
    requires ReadInside(p + ([' ', '"'] + e)).Some?
    ensures |ReadInside(p + ([' ', '"'] + e)).value.1| >= |e|
    decreases |p|
  {
    var s := p + ([' ', '"'] + e);
    if p == "" {
      assert s[1..] == ['"'] + e && s[1..][1..] == e;
    } else if p[0] == '"' {
      assert s[1..] == p[1..] + ([' ', '"'] + e);
    } else if p[0] == '\\' {
      assert |p| > 1;
      assert s[2..] == p[2..] + ([' ', '"'] + e);
      StopsBefore(p[2..], e);
    } else {
      assert s[1..] == p[1..] + ([' ', '"'] + e);
      StopsBefore(p[1..], e);
    }
  }

  /** Two ways to cut one text at a quote behind a blank: the inside that a reader consumes to its end starts where the
      printed literal does. */
  lemma SameOpening(a: string, value: string, b: string, raw: string, v: string)
    requires a + ([' ', '"'] + (EscapeEach(value) + "\" },")) == b + ([' ', '"'] + raw)
    requires ReadInside(raw) == Some((v, " },"))
    ensures a == b
  {
    var e := EscapeEach(value) + "\" },";
    var whole := a + ([' ', '"'] + e);
    assert whole == b + ([' ', '"'] + raw);
    assert |e| >= 4;
    if |a| < |b| {
      assert whole[|a| + 1] == '"' && whole[|b|] == ' ';
      assert |b| >= |a| + 2;
      var q := b[|a| + 2..];
      assert e == whole[|a| + 2..] == q + ([' ', '"'] + raw);
      LaterOpening(value, q, raw);
      assert false;
    } else if |b| < |a| {
      assert whole[|b| + 1] == '"' && whole[|a|] == ' ';
      assert |a| >= |b| + 2;
      var q := a[|b| + 2..];
      assert raw == whole[|b| + 2..] == q + ([' ', '"'] + e);
      StopsBefore(q, e);
      assert false;
    }
    assert a == whole[..|a|] && b == whole[..|b|];
  }

  lemma LaterOpening(value: string, q: string, raw: string)
    requires EscapeEach(value) + "\" }," == q + ([' ', '"'] + raw)
    ensures raw == " },"
    ensures ReadInside(raw) == None
  {
    var e := EscapeEach(value) + "\" },";
    var j := |q| + 1;
    assert e[j] == '"' && e[j - 1] == ' ';
    if j < |EscapeEach(value)| {
      QuoteIsEscaped(value, j);
    }
    assert e[|EscapeEach(value)|..] == "\" },";
    assert j == |EscapeEach(value)|;
    assert raw == e[j + 1..] == " },";
    NeverClosed(raw);
  }

  /** Two lists of a word after another are one when neither word of the second has a comma. */
  lemma SameWords(t: string, s: string, w1: string, w2: string, tag: string)
    requires tag != "" && tag[0] == ',' && ',' !in tag[1..]
    requires t + (tag + s) == w1 + (tag + w2) && ',' !in w1 && ',' !in w2
    ensures t == w1 && s == w2
  {
    var whole := t + (tag + s);
    assert whole == w1 + (tag + w2);
    assert whole[|t|] == ',';
    forall k | 0 <= k < |whole| && k != |w1| ensures whole[k] != ',' {
      if k < |w1| {
        assert whole[k] == w1[k];
      } else if k < |w1| + |tag| {
        assert whole[k] == tag[k - |w1|] == tag[1..][k - |w1| - 1];
      } else {
        assert whole[k] == w2[k - |w1| - |tag|];
      }
    }
    assert |t| == |w1|;
    assert t == whole[..|t|] && w1 == whole[..|t|];
    assert s == whole[|t| + |tag|..] && w2 == whole[|t| + |tag|..];
  }

  lemma KnownTail(text: string, sab: string, signature: string)
    requires StatusOf(text).Some? && StatusOf(sab).Some?
    ensures ReadTail(TailText(text, sab, signature))
         == if Printable(signature) then Some((StatusOf(text).value, StatusOf(sab).value, signature)) else None
  {
    var s2 := ", .signature = " + (ZigStr(signature) + " },");
    var s1 := ", .sab = ." + (sab + s2);
    ReadEnumBack(", .text = .", text, s1);
    ReadEnumBack(", .sab = .", sab, s2);
    ReadTextBack(", .signature = ", signature, " },");
  }

  lemma StatusRead(s: string, tag: string) returns (word: string, rest: string)
    requires ReadEnum(s, tag).Some?
    ensures s == tag + (word + rest) && StatusOf(word).Some? && rest == ReadEnum(s, tag).value.1
  {
    var t := s[|tag|..];
    word, rest := t[..LetterLen(t)], t[LetterLen(t)..];
    assert t == word + rest && s == tag + t;
  }

  lemma TextRead(s: string, tag: string) returns (raw: string)
    requires ReadText(s, tag).Some?
    ensures s == tag + (['"'] + raw) && ReadInside(raw) == ReadText(s, tag)
  {
    var t := s[|tag|..];
    raw := t[1..];
    assert t == ['"'] + raw && s == tag + t;
  }

  /** The text from the statuses on, cut in front of the blank and the quote that open the signature. */
  lemma CutAtOpening(text: string, sab: string, rest: string)
    ensures text + (", .sab = ." + (sab + (", .signature = " + (['"'] + rest))))
         == (text + (", .sab = ." + (sab + ", .signature ="))) + ([' ', '"'] + rest)
  {
    var tail := [' ', '"'] + rest;
    assert ", .signature = " + (['"'] + rest) == ", .signature =" + tail;
    Assoc(sab, ", .signature =", tail);
    Assoc(", .sab = .", sab + ", .signature =", tail);
    Assoc(text, ", .sab = ." + (sab + ", .signature ="), tail);
  }

  lemma WithoutSuffix(a: string, b: string, suffix: string)
    requires a + suffix == b + suffix
    ensures a == b
  {
    assert |a| == |b|;
    assert a == (a + suffix)[..|a|] && b == (b + suffix)[..|a|];
  }

  lemma WordsHaveNoComma(word: string)
    requires StatusOf(word).Some?
    ensures ',' !in word
  {
  }

  lemma Openings(text: string, sab: string, e: string, w1: string, w2: string, raw: string)
    requires text + (", .sab = ." + (sab + (", .signature = " + (['"'] + e))))
          == w1 + (", .sab = ." + (w2 + (", .signature = " + (['"'] + raw))))
    ensures (text + (", .sab = ." + (sab + ", .signature ="))) + ([' ', '"'] + e)
         == (w1 + (", .sab = ." + (w2 + ", .signature ="))) + ([' ', '"'] + raw)
  {
    CutAtOpening(text, sab, e);
    CutAtOpening(w1, w2, raw);
  }

  lemma SameStatuses(text: string, sab: string, w1: string, w2: string)
    requires text + (", .sab = ." + (sab + ", .signature =")) == w1 + (", .sab = ." + (w2 + ", .signature ="))
    requires StatusOf(w1).Some? && StatusOf(w2).Some?
    ensures text == w1 && sab == w2
  {
    var tag, suffix := ", .sab = .", ", .signature =";
    Assoc(tag, sab, suffix);
    Assoc(text, tag + sab, suffix);
    Assoc(tag, w2, suffix);
    Assoc(w1, tag + w2, suffix);
    WithoutSuffix(text + (tag + sab), w1 + (tag + w2), suffix);
    WordsHaveNoComma(w1);
    WordsHaveNoComma(w2);
    SameWords(text, sab, w1, w2, tag);
  }

  /** Whatever stands in the place of the statuses, the reader accepts nothing but two words of the enum there. */
  lemma OnlyWords(text: string, sab: string, signature: string)
    requires ReadTail(TailText(text, sab, signature)).Some?
    ensures StatusOf(text).Some? && StatusOf(sab).Some?
  {
    var s := TailText(text, sab, signature);
    var w1, s1 := StatusRead(s, ", .text = .");
    var w2, s2 := StatusRead(s1, ", .sab = .");
    var raw := TextRead(s2, ", .signature = ");
    EscapedIsEach(signature);
    var e := EscapeEach(signature) + "\" },";
    LiteralOpens(signature);
    var printed := text + (", .sab = ." + (sab + (", .signature = " + (['"'] + e))));
    var read := w1 + (", .sab = ." + (w2 + (", .signature = " + (['"'] + raw))));
    SameRest(", .text = .", printed, read);
    Openings(text, sab, e, w1, w2, raw);
    SameOpening(text + (", .sab = ." + (sab + ", .signature =")), signature,
                w1 + (", .sab = ." + (w2 + ", .signature =")), raw, ReadInside(raw).value.0);
    SameStatuses(text, sab, w1, w2);
  }

  lemma LiteralOpens(value: string)
    ensures ZigStr(value) + " }," == ['"'] + (EscapeEach(value) + "\" },")
  {
    EscapedIsEach(value);
    assert "\"" + " }," == "\" },";
    Assoc(EscapeEach(value), "\"", " },");
    Assoc("\"", EscapeEach(value) + "\"", " },");
  }

  lemma SameRest(prefix: string, a: string, b: string)
    requires prefix + a == prefix + b
    ensures a == b
  {
    assert a == (prefix + a)[|prefix|..] && b == (prefix + b)[|prefix|..];
  }

  lemma EntryParts(row: Row)
    requires HasColumns(row, ENTRY_COLUMNS)
    ensures "symbol" in row && "class" in row && "text" in row && "sab" in row && "signature" in row
    ensures EntryLine(row) == "    .{ .symbol = " + (ZigStr(row["symbol"]) + (", .class = " + (ZigStr(row["class"])
                              + TailText(row["text"], row["sab"], row["signature"]))))
  {
    assert "symbol" in ENTRY_COLUMNS && "class" in ENTRY_COLUMNS && "text" in ENTRY_COLUMNS && "sab" in ENTRY_COLUMNS
        && "signature" in ENTRY_COLUMNS;
  }

  /** An entry line is read back as the row it was printed from, whatever its fields hold, and is rejected exactly when
      the row cannot be printed: nothing in a field passes for the end of it. */
  lemma EntryRoundTrip(row: Row)
    requires HasColumns(row, ENTRY_COLUMNS)
    ensures ReadEntry(EntryLine(row)) == if Printed(row) then Some(EntryOf(row)) else None
  {
    EntryParts(row);
    var tail := TailText(row["text"], row["sab"], row["signature"]);
    ReadTextBack("    .{ .symbol = ", row["symbol"], ", .class = " + (ZigStr(row["class"]) + tail));
    ReadTextBack(", .class = ", row["class"], tail);
    if KnownStatuses(row) {
      KnownTail(row["text"], row["sab"], row["signature"]);
    } else if ReadTail(tail).Some? {
      OnlyWords(row["text"], row["sab"], row["signature"]);
      assert false;
    }
  }

  ghost function EntriesOf(rows: seq<Row>): (entries: seq<Entry>)
    requires forall row :: row in rows ==> KnownStatuses(row)
    ensures |entries| == |rows|
    ensures forall i :: 0 <= i < |rows| ==> entries[i] == EntryOf(rows[i])
  {
    seq(|rows|, i requires 0 <= i < |rows| => EntryOf(rows[i]))
  }

  /** The emitter stops at the first row that lacks a column, and at the first column that it prints and that row lacks. */
  lemma {:induction false} EntriesStop(rows: seq<Row>, error: Error)
    ensures EntryLines(rows) == Failure(error) <==>
      exists i :: && 0 <= i < |rows| && (forall j :: 0 <= j < i ==> HasColumns(rows[j], ENTRY_COLUMNS))
                  && error.MissingColumn? && StopsAt(rows[i], ["symbol", "class", "text", "sab", "signature"], error.column)
  {
    if rows != [] {
      var rest := rows[1..];
      EntriesStop(rest, error);
      if HasColumns(rows[0], ENTRY_COLUMNS) {
        assert !(error.MissingColumn? && StopsAt(rows[0], ENTRY_COLUMNS, error.column));
        assert forall i :: 0 <= i < |rest| ==> rest[i] == rows[i + 1];
        if i :| && 0 <= i < |rows| && (forall j :: 0 <= j < i ==> HasColumns(rows[j], ENTRY_COLUMNS))
                && error.MissingColumn? && StopsAt(rows[i], ENTRY_COLUMNS, error.column)
        {
          assert StopsAt(rest[i - 1], ENTRY_COLUMNS, error.column);
          forall j | 0 <= j < i - 1 ensures HasColumns(rest[j], ENTRY_COLUMNS) {
            assert rest[j] == rows[j + 1];
          }
        }
        if i :| && 0 <= i < |rest| && (forall j :: 0 <= j < i ==> HasColumns(rest[j], ENTRY_COLUMNS))
                && error.MissingColumn? && StopsAt(rest[i], ENTRY_COLUMNS, error.column)
        {
          assert StopsAt(rows[i + 1], ENTRY_COLUMNS, error.column);
          forall j | 0 <= j < i + 1 ensures HasColumns(rows[j], ENTRY_COLUMNS) {
            assert j > 0 ==> rows[j] == rest[j - 1];
          }
        }
      } else {
        FirstMissingExact(rows[0], ENTRY_COLUMNS, FirstMissing(rows[0], ENTRY_COLUMNS));
        if error.MissingColumn? {
          FirstMissingExact(rows[0], ENTRY_COLUMNS, error.column);
        }
      }
    }
  }

  lemma EntryLineOpens(row: Row)
    requires HasColumns(row, ENTRY_COLUMNS)
    ensures EntryLine(row) != "};"
  {
    assert EntryLine(row)[0] == ' ';
  }

  lemma {:induction false} EntryLinesAt(rows: seq<Row>)
    requires EntryLines(rows).Success?
    ensures |EntryLines(rows).value| == |rows|
    ensures forall i :: 0 <= i < |rows| ==> EntryLines(rows).value[i] == EntryLine(rows[i])
  {
    if rows != [] {
      EntryLinesAt(rows[1..]);
    }
  }

  lemma {:induction false} ReadListAll<T>(lines: seq<string>, items: seq<T>, close: string, read: string -> Option<T>, after: seq<string>)
    requires |lines| == |items|
    requires forall i :: 0 <= i < |lines| ==> lines[i] != close && read(lines[i]) == Some(items[i])
    ensures ReadList(lines + ([close] + after), close, read) == Some((items, after))
  {
    var all := lines + ([close] + after);
    if lines == [] {
      assert all[0] == close && all[1..] == after;
    } else {
      ReadListAll(lines[1..], items[1..], close, read, after);
      assert all[1..] == lines[1..] + ([close] + after);
      assert [items[0]] + items[1..] == items;
    }
  }

  lemma {:induction false} ReadListBad<T>(lines: seq<string>, i: nat, close: string, read: string -> Option<T>, after: seq<string>)
    requires i < |lines| && read(lines[i]) == None
    requires forall j :: 0 <= j <= i ==> lines[j] != close
    ensures ReadList(lines + after, close, read) == None
  {
    assert (lines + after)[1..] == lines[1..] + after;
    if i > 0 {
      ReadListBad(lines[1..], i - 1, close, read, after);
    }
  }

  lemma EntryLineReads(rows: seq<Row>, i: nat)
    requires EntryLines(rows).Success? && i < |rows|
    ensures |EntryLines(rows).value| == |rows| && EntryLines(rows).value[i] != "};"
    ensures ReadEntry(EntryLines(rows).value[i]) == if Printed(rows[i]) then Some(EntryOf(rows[i])) else None
  {
    EntryLinesAt(rows);
    assert rows[i] in rows;
    EntryRoundTrip(rows[i]);
    EntryLineOpens(rows[i]);
  }

  /** The printed entries are read back in order, and nothing else is; one row that cannot be printed spoils them. */
  lemma EntriesRoundTrip(rows: seq<Row>, after: seq<string>)
    requires EntryLines(rows).Success?
    ensures ReadList(EntryLines(rows).value + (["};"] + after), "};", ReadEntry)
         == if forall row :: row in rows ==> Printed(row) then Some((EntriesOf(rows), after)) else None
  {
    var lines := EntryLines(rows).value;
    EntryLinesAt(rows);
    if forall row :: row in rows ==> Printed(row) {
      forall i | 0 <= i < |rows| ensures lines[i] != "};" && ReadEntry(lines[i]) == Some(EntriesOf(rows)[i]) {
        EntryLineReads(rows, i);
        assert rows[i] in rows;
      }
      ReadListAll(lines, EntriesOf(rows), "};", ReadEntry, after);
    } else {
      var row :| row in rows && !Printed(row);
      var i :| 0 <= i < |rows| && rows[i] == row;
      forall j | 0 <= j <= i ensures lines[j] != "};" {
        EntryLineReads(rows, j);
      }
      EntryLineReads(rows, i);
      ReadListBad(lines, i, "};", ReadEntry, ["};"] + after);
    }
  }
}
