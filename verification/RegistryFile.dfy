/** The registry file as the emitter reads it: stamps, header and body lines. */
module RegistryFile {
  import opened Strings
  import opened Ordering
  import opened Tsv
  import opened GenProbes
  import opened BuildRegistry
  import opened EmitRegistry
  import opened HeadLines
  import opened EmittedCode

  lemma RegistryColumns()
    ensures |REGISTRY_COLUMNS| == 7 && REGISTRY_COLUMNS[0] == "symbol" && REGISTRY_COLUMNS[2] == "text"
    ensures Distinct(REGISTRY_COLUMNS)
  {
  }

  ghost predicate ColumnName(c: string) {
    Field(c) && c != "" && !IsSpace(c[0]) && c[0] != '#'
  }

  lemma RegistryColumnNames()
    ensures forall c :: c in REGISTRY_COLUMNS ==> ColumnName(c)
  {
    assert ColumnName("symbol") && ColumnName("class") && ColumnName("text") && ColumnName("sab");
    assert ColumnName("signature") && ColumnName("probe_id") && ColumnName("note");
  }

  lemma NotBlank(s: string)
    requires s != "" && !IsSpace(s[0])
    ensures !Blank(s)
  {
    assert s[0] in s;
  }

  lemma FirstFieldOpens(fields: seq<string>)
    requires |fields| > 1
    ensures StartsWith(Join("\t", fields), "#") <==> StartsWith(fields[0], "#")
  {
    var rest := "\t" + Join("\t", fields[1..]);
    assert rest[0] == '\t';
    assert Join("\t", fields) == fields[0] + rest;
    HashOpens(fields[0]);
    HashOpens(fields[0] + rest);
  }

  lemma HashOpens(s: string)
    ensures StartsWith(s, "#") <==> s != "" && s[0] == '#'
  {
    assert s != "" ==> s == [s[0]] + s[1..];
  }

  lemma HeaderLine(columns: seq<string>)
    requires |columns| > 1
    requires forall c :: c in columns ==> ColumnName(c)
    ensures NoBreak(Join("\t", columns)) && IsData(Join("\t", columns))
    ensures Split(Join("\t", columns), '\t') == columns
  {
    var header := Join("\t", columns);
    forall c | c in header ensures c != '\n' && c != '\r' {
      JoinChars("\t", columns, c);
    }
    FirstFieldOpens(columns);
    JoinBlank("\t", columns);
    assert columns[0] in columns;
    NotBlank(columns[0]);
    SplitJoin(columns, '\t');
  }

  lemma BannerFront()
    ensures NoBreak("# DEF-SAB-AUDIT registration " + "registry — GENERATED by ")
  {
  }

  lemma BannerBack()
    ensures NoBreak("tools/sab_audit/regen.sh; " + "do not edit by hand.")
  {
  }

  lemma BannerLine()
    ensures NoBreak(BANNER) && !IsData(BANNER)
  {
    var front := "# DEF-SAB-AUDIT registration " + "registry — GENERATED by ";
    var back := "tools/sab_audit/regen.sh; " + "do not edit by hand.";
    BannerFront();
    BannerBack();
    NoBreakConcat(front, back);
    assert BANNER == front + back;
    assert BANNER[0] == '#';
  }

  lemma RegistryHeader()
    ensures NoBreak(Join("\t", REGISTRY_COLUMNS)) && IsData(Join("\t", REGISTRY_COLUMNS))
    ensures Split(Join("\t", REGISTRY_COLUMNS), '\t') == REGISTRY_COLUMNS
  {
    RegistryColumnNames();
    HeaderLine(REGISTRY_COLUMNS);
  }

  lemma OneDataLine(line: string)
    requires NoBreak(line)
    ensures DataLines(line + "\n") == if IsData(line) then [line] else []
  {
    FileLinesOfUnlines([line]);
    assert ['\n'] + Unlines([]) == "\n";
    assert [line][1..] == [];
    assert Filter([line], IsData) == (if IsData(line) then [line] else []) + Filter([], IsData);
  }

  lemma BannerData()
    ensures DataLines(BANNER + "\n") == []
  {
    BannerLine();
    OneDataLine(BANNER);
  }

  lemma PluginData(head: string)
    ensures DataLines((PLUGIN_STAMP + " " + head) + "\n") == Filter(Further(head), IsData)
  {
    StampedData(PLUGIN_STAMP + " ", head);
  }

  lemma StdData(head: string)
    ensures DataLines((STD_STAMP + " " + head) + "\n") == Filter(Further(head), IsData)
  {
    StampedData(STD_STAMP + " ", head);
  }

  lemma TableData(body: seq<string>)
    requires forall l :: l in body ==> NoBreak(l)
    ensures DataLines(Unlines([Join("\t", REGISTRY_COLUMNS)] + body)) == [Join("\t", REGISTRY_COLUMNS)] + Filter(body, IsData)
  {
    RegistryHeader();
    var lines := [Join("\t", REGISTRY_COLUMNS)] + body;
    FileLinesOfUnlines(lines);
    assert lines[1..] == body;
  }

  lemma Unstack<T>(a: T, b: T, c: T, d: T, rest: seq<T>)
    ensures [a, b, c, d] + rest == [a] + ([b] + ([c] + ([d] + rest)))
  {
  }

  /** What the emitter sees: whatever the heads let in, then the header, then the visible body lines, sorted. */
  lemma RegistryReadBack(body: seq<string>, pluginHead: string, stdHead: string)
    requires forall l :: l in body ==> NoBreak(l)
    ensures DataLines(RegistryText(body, pluginHead, stdHead))
         == Filter(Further(pluginHead), IsData) + (Filter(Further(stdHead), IsData)
            + ([Join("\t", REGISTRY_COLUMNS)] + Filter(Sort(body, Below), IsData)))
  {
    BelowPreorder(body);
    SortMembers(body, Below);
    var sorted, header := Sort(body, Below), Join("\t", REGISTRY_COLUMNS);
    var plugin, std := PLUGIN_STAMP + " " + pluginHead, STD_STAMP + " " + stdHead;
    UnlinesIsJoin(Stamps(pluginHead, stdHead) + sorted);
    Unstack(BANNER, plugin, std, header, sorted);
    BannerData();
    PluginData(pluginHead);
    StdData(stdHead);
    TableData(sorted);
    LineApart(BANNER, [plugin] + ([std] + ([header] + sorted)));
    LineApart(plugin, [std] + ([header] + sorted));
    LineApart(std, [header] + sorted);
  }

  // ----- stamp recovery -----

  lemma {:induction false} StampAppend(a: seq<string>, b: seq<string>, prefix: string)
    ensures Stamp(a + b, prefix) == if Stamp(b, prefix).Some? then Stamp(b, prefix) else Stamp(a, prefix)
    ensures Stamp(b, prefix).Some? <==> exists l :: l in b && StartsWith(l, prefix)
  {
    if b == [] {
      assert a + b == a;
    } else {
      var n := |b| - 1;
      assert b == b[..n] + [b[n]];
      assert (a + b)[..|a + b| - 1] == a + b[..n];
      StampAppend(a, b[..n], prefix);
    }
  }

  lemma AfterFirstColon(prefix: string, t: string)
    requires prefix != "" && Strings.Find(prefix, ':') == |prefix| - 1
    ensures AfterColon(prefix + t) == t
  {
    var line := prefix + t;
    assert line[|prefix| - 1] == ':';
    assert forall i :: 0 <= i < |prefix| - 1 ==> line[i] == prefix[i];
    assert Strings.Find(line, ':') == |prefix| - 1;
    assert line[|prefix|..] == t;
  }

  lemma StripBlank(t: string)
    ensures Strip(" " + t) == Strip(t)
  {
    assert (" " + t)[1..] == t;
  }

  lemma StampOfLine(prefix: string, head: string)
    requires prefix != "" && Strings.Find(prefix, ':') == |prefix| - 1
    ensures Strip(AfterColon(prefix + " " + head)) == Strip(head)
  {
    var t := " " + head;
    AfterFirstColon(prefix, t);
    StripBlank(head);
    Assoc(prefix, " ", head);
  }

  lemma StampStarts(prefix: string, other: string, head: string)
    requires |prefix| > 2 && |other| > 2 && prefix[2] != other[2]
    ensures StartsWith(prefix + " " + head, prefix)
    ensures !StartsWith(other + " " + head, prefix)
  {
    assert prefix + " " + head == prefix + (" " + head);
    assert (other + " " + head)[2] == other[2];
  }

  lemma FindLast(s: string, c: char)
    requires s != "" && s[|s| - 1] == c && c !in s[..|s| - 1]
    ensures Strings.Find(s, c) == |s| - 1
  {
    forall i | 0 <= i < |s| - 1 ensures s[i] != c {
      assert s[i] == s[..|s| - 1][i];
    }
  }

  lemma PluginColon()
    ensures |PLUGIN_STAMP| == 14 && PLUGIN_STAMP[0] == '#' && PLUGIN_STAMP[2] == 'p'
    ensures Strings.Find(PLUGIN_STAMP, ':') == |PLUGIN_STAMP| - 1
  {
    assert PLUGIN_STAMP[..13] == "# plugin_head";
    FindLast(PLUGIN_STAMP, ':');
  }

  lemma StdColon()
    ensures |STD_STAMP| == 14 && STD_STAMP[0] == '#' && STD_STAMP[2] == 's'
    ensures Strings.Find(STD_STAMP, ':') == |STD_STAMP| - 1
  {
    assert STD_STAMP[..13] == "# sa_std_head";
    FindLast(STD_STAMP, ':');
  }

  lemma HeaderIsNoStamp(prefix: string)
    requires prefix != "" && prefix[0] == '#'
    ensures !StartsWith(Join("\t", REGISTRY_COLUMNS), prefix)
  {
    RegistryHeader();
    HashOpens(Join("\t", REGISTRY_COLUMNS));
  }

  lemma StampInHead(pluginHead: string, stdHead: string)
    ensures Stamp(Stamps(pluginHead, stdHead), PLUGIN_STAMP) == Some(Strip(pluginHead))
    ensures Stamp(Stamps(pluginHead, stdHead), STD_STAMP) == Some(Strip(stdHead))
  {
    PluginColon();
    StdColon();
    HeaderIsNoStamp(PLUGIN_STAMP);
    HeaderIsNoStamp(STD_STAMP);
    StampAmong(PLUGIN_STAMP, STD_STAMP, BANNER, pluginHead, stdHead, Join("\t", REGISTRY_COLUMNS));
  }

  lemma StampAmong(plugin: string, std: string, first: string, pluginHead: string, stdHead: string, last: string)
    requires |plugin| > 2 && |std| > 2 && plugin[2] != std[2]
    requires Strings.Find(plugin, ':') == |plugin| - 1 && Strings.Find(std, ':') == |std| - 1
    requires !StartsWith(last, plugin) && !StartsWith(last, std)
    ensures Stamp([first, plugin + " " + pluginHead, std + " " + stdHead, last], plugin) == Some(Strip(pluginHead))
    ensures Stamp([first, plugin + " " + pluginHead, std + " " + stdHead, last], std) == Some(Strip(stdHead))
  {
    StampStarts(plugin, std, pluginHead);
    StampStarts(plugin, std, stdHead);
    StampStarts(std, plugin, stdHead);
    StampOfLine(plugin, pluginHead);
    StampOfLine(std, stdHead);
    NextToLast([first, plugin + " " + pluginHead], std + " " + stdHead, last, plugin);
    NextToLast([first, plugin + " " + pluginHead], std + " " + stdHead, last, std);
    assert [first, plugin + " " + pluginHead] + [std + " " + stdHead, last]
        == [first, plugin + " " + pluginHead, std + " " + stdHead, last];
  }

  lemma NextToLast(front: seq<string>, c: string, d: string, prefix: string)
    requires !StartsWith(d, prefix)
    ensures Stamp(front + [c, d], prefix) == if StartsWith(c, prefix) then Some(Strip(AfterColon(c))) else Stamp(front, prefix)
  {
    var lines := front + [c, d];
    assert lines[..|lines| - 1] == front + [c] && (front + [c])[..|front|] == front;
  }

  /** The emitter recovers both heads, stripped. Only a body line that itself starts like a stamp gets in the way:
      the emitter then reports the last of those instead. */
  lemma StampsRecovered(body: seq<string>, pluginHead: string, stdHead: string)
    requires NoBreak(pluginHead) && NoBreak(stdHead) && forall l :: l in body ==> NoBreak(l)
    ensures var lines := FileLines(RegistryText(body, pluginHead, stdHead));
      && (Stamp(lines, PLUGIN_STAMP) == if exists l :: l in body && StartsWith(l, PLUGIN_STAMP)
            then Stamp(Sort(body, Below), PLUGIN_STAMP) else Some(Strip(pluginHead)))
      && (Stamp(lines, STD_STAMP) == if exists l :: l in body && StartsWith(l, STD_STAMP)
            then Stamp(Sort(body, Below), STD_STAMP) else Some(Strip(stdHead)))
  {
    BelowPreorder(body);
    SortMembers(body, Below);
    var front, sorted := Stamps(pluginHead, stdHead), Sort(body, Below);
    UnlinesIsJoin(front + sorted);
    StampsNoBreak(pluginHead, stdHead);
    FileLinesOfUnlines(front + sorted);
    StampInHead(pluginHead, stdHead);
    StampAppend(front, sorted, PLUGIN_STAMP);
    StampAppend(front, sorted, STD_STAMP);
  }

  lemma StampsNoBreak(pluginHead: string, stdHead: string)
    requires NoBreak(pluginHead) && NoBreak(stdHead)
    ensures forall l :: l in Stamps(pluginHead, stdHead) ==> NoBreak(l)
  {
    BannerLine();
    RegistryHeader();
    PluginNoBreak(pluginHead);
    StdNoBreak(stdHead);
    EachNoBreak(BANNER, PLUGIN_STAMP + " " + pluginHead, STD_STAMP + " " + stdHead, Join("\t", REGISTRY_COLUMNS));
  }

  lemma PluginNoBreak(head: string)
    requires NoBreak(head)
    ensures NoBreak(PLUGIN_STAMP + " " + head)
  {
    NoBreakConcat(PLUGIN_STAMP + " ", head);
  }

  lemma StdNoBreak(head: string)
    requires NoBreak(head)
    ensures NoBreak(STD_STAMP + " " + head)
  {
    NoBreakConcat(STD_STAMP + " ", head);
  }

  lemma EachNoBreak(a: string, b: string, c: string, d: string)
    requires NoBreak(a) && NoBreak(b) && NoBreak(c) && NoBreak(d)
    ensures forall l :: l in [a, b, c, d] ==> NoBreak(l)
  {
  }
}
