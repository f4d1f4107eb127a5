/** The stamps in the comment of the emitted text: which lines of the registry they come from. */
module EmittedStamps {
  import opened Strings
  import opened Tsv
  import opened BuildRegistry
  import opened EmitRegistry
  import opened RegistryFile

  /** What stands after the prefix, without the blanks around it, on the last line that has it; a question mark if none has. */
  ghost predicate IsStamp(lines: seq<string>, prefix: string, value: string) {
    if forall l :: l in lines ==> !(prefix <= l) then value == "?"
    else exists i :: 0 <= i < |lines| && LastWith(lines, prefix, i) && StampedWith(lines[i], prefix, value)
  }

  ghost predicate LastWith(lines: seq<string>, prefix: string, i: nat)
    requires i < |lines|
  {
    prefix <= lines[i] && forall j :: i < j < |lines| ==> !(prefix <= lines[j])
  }

  ghost predicate StampedWith(line: string, prefix: string, value: string)
    requires prefix <= line
  {
    exists lead, trail :: Trimmed(line[|prefix|..], lead, value, trail)
  }

  lemma AfterPrefix(line: string, prefix: string)
    requires prefix != "" && Strings.Find(prefix, ':') == |prefix| - 1 && prefix <= line
    ensures StampedWith(line, prefix, Strip(AfterColon(line)))
  {
    var t := line[|prefix|..];
    assert line == prefix + t;
    AfterFirstColon(prefix, t);
    StripExact(t, Strip(t));
  }

  lemma StampAt(lines: seq<string>, prefix: string, i: nat, value: string)
    requires i < |lines| && LastWith(lines, prefix, i) && StampedWith(lines[i], prefix, value)
    ensures IsStamp(lines, prefix, value)
  {
    assert lines[i] in lines;
  }

  lemma StampBefore(init: seq<string>, last: string, prefix: string, value: string)
    requires IsStamp(init, prefix, value) && !(prefix <= last)
    ensures IsStamp(init + [last], prefix, value)
  {
    var lines := init + [last];
    if l :| l in init && prefix <= l {
      var i :| 0 <= i < |init| && LastWith(init, prefix, i) && StampedWith(init[i], prefix, value);
      forall j | i < j < |lines| ensures !(prefix <= lines[j]) {
        assert j < |init| ==> lines[j] == init[j];
      }
      assert lines[i] == init[i];
      StampAt(lines, prefix, i, value);
    }
  }

  lemma {:induction false} StampIs(lines: seq<string>, prefix: string)
    requires prefix != "" && Strings.Find(prefix, ':') == |prefix| - 1
    ensures IsStamp(lines, prefix, OrUnknown(Stamp(lines, prefix)))
  {
    if lines != [] {
      var n := |lines| - 1;
      var init := lines[..n];
      assert lines == init + [lines[n]];
      if StartsWith(lines[n], prefix) {
        AfterPrefix(lines[n], prefix);
        StampAt(lines, prefix, n, OrUnknown(Stamp(lines, prefix)));
      } else {
        StampIs(init, prefix);
        StampBefore(init, lines[n], prefix, OrUnknown(Stamp(init, prefix)));
      }
    }
  }

  /** The comment at the top of the text shows the two stamps. */
  ghost predicate Shows(zig: string, plugin: string, stdHead: string) {
    exists rest :: Opening(plugin, stdHead) + rest == zig
  }

  ghost function Opening(plugin: string, stdHead: string): string {
    "//! sab_audit_registry.zig — " + "GENERATED by tools/sab_audit/" + "emit_registry_zig.py" + "\n"
    + ("//! from tools/sab_audit/" + "registry.tsv (probe-matrix " + "output)." + "\n")
    + ("//! Do not edit by hand: " + "regenerate with " + "tools/sab_audit/regen.sh." + "\n")
    + ("//! Registry stamps: " + ("plugin_head=" + (plugin + (" sa_std_head=" + stdHead))) + "\n")
  }

  lemma OpeningIs(plugin: string, stdHead: string, rest: seq<string>)
    requires rest != []
    ensures Opening(plugin, stdHead) + Join("\n", rest) == Join("\n", Comments(plugin, stdHead) + rest)
  {
    FourLines(GENERATED_BY, GENERATED_FROM, NO_EDIT, StampComment(plugin, stdHead), rest);
  }

  lemma FourLines(a: string, b: string, c: string, d: string, rest: seq<string>)
    requires rest != []
    ensures a + "\n" + (b + "\n") + (c + "\n") + (d + "\n") + Join("\n", rest) == Join("\n", [a, b, c, d] + rest)
  {
    JoinedLine(d, rest);
    JoinedLine(c, [d] + rest);
    JoinedLine(b, [c] + ([d] + rest));
    JoinedLine(a, [b] + ([c] + ([d] + rest)));
    assert [a, b, c, d] + rest == [a] + ([b] + ([c] + ([d] + rest)));
  }

  lemma JoinedLine(a: string, rest: seq<string>)
    requires rest != []
    ensures Join("\n", [a] + rest) == a + ("\n" + Join("\n", rest))
  {
    assert ([a] + rest)[1..] == rest;
  }

  lemma CommentsFirst(a: seq<string>, b: seq<string>, c: seq<string>, d: seq<string>, e: seq<string>, f: seq<string>)
    ensures a + b + c + d + e + f == a + (b + c + d + e + f)
  {
  }

  lemma ShownBy(plugin: string, stdHead: string, rest: seq<string>)
    requires rest != []
    ensures Shows(Join("\n", Comments(plugin, stdHead) + rest), plugin, stdHead)
  {
    OpeningIs(plugin, stdHead, rest);
  }

  lemma EmittedFrom(registryText: string) returns (rest: seq<string>)
    requires Emitted(registryText).Success?
    ensures var lines := FileLines(registryText);
      Emitted(registryText).value
      == Join("\n", Comments(OrUnknown(Stamp(lines, PLUGIN_STAMP)), OrUnknown(Stamp(lines, STD_STAMP))) + rest)
    ensures rest != []
  {
    var lines := FileLines(registryText);
    var entryLines := EntryLines(TableOf(Filter(lines, IsData)).rows).value;
    var comments := Comments(OrUnknown(Stamp(lines, PLUGIN_STAMP)), OrUnknown(Stamp(lines, STD_STAMP)));
    rest := IMPORTS + ENTRY_TYPE + [ENTRIES_OPEN] + entryLines + POSTAMBLE;
    CommentsFirst(comments, IMPORTS, ENTRY_TYPE, [ENTRIES_OPEN], entryLines, POSTAMBLE);
    NotEmpty(IMPORTS + ENTRY_TYPE, ENTRIES_OPEN, entryLines, POSTAMBLE);
  }

  lemma NotEmpty(a: seq<string>, l: string, b: seq<string>, c: seq<string>)
    ensures a + [l] + b + c != []
  {
    assert |a + [l] + b + c| > 0;
  }

  /** Whatever the registry text is, the emitted text shows the last stamps in it. */
  lemma StampsShown(registryText: string)
    ensures Emitted(registryText).Success? ==>
      exists plugin, stdHead ::
        && IsStamp(FileLines(registryText), "# plugin_head:", plugin) && IsStamp(FileLines(registryText), "# sa_std_head:", stdHead)
        && Shows(Emitted(registryText).value, plugin, stdHead)
  {
    if Emitted(registryText).Success? {
      var lines := FileLines(registryText);
      var plugin, stdHead := OrUnknown(Stamp(lines, PLUGIN_STAMP)), OrUnknown(Stamp(lines, STD_STAMP));
      PluginColon();
      StdColon();
      StampIs(lines, "# plugin_head:");
      StampIs(lines, "# sa_std_head:");
      var rest := EmittedFrom(registryText);
      ShownBy(plugin, stdHead, rest);
    }
  }
}
