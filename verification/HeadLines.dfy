/** The head stamps in the registry file: which heads keep the table readable. */
module HeadLines {
  import opened Strings
  import opened EmitRegistry

  lemma {:induction false} SplitConcat(x: string, c: char, y: string)
    ensures Split(x + ([c] + y), c) == Split(x, c) + Split(y, c)
    decreases |x|
  {
    var k := Strings.Find(x, c);
    if k == |x| {
      SplitAtFirst(x, c, y);
    } else {
      var first, rest := x[..k], x[k + 1..];
      SplitConcat(rest, c, y);
      assert x == first + ([c] + rest);
      SplitConcatStep(first, c, rest, y);
    }
  }

  lemma SplitConcatStep(first: string, c: char, rest: string, y: string)
    requires c !in first
    requires Split(rest + ([c] + y), c) == Split(rest, c) + Split(y, c)
    ensures Split((first + ([c] + rest)) + ([c] + y), c) == Split(first + ([c] + rest), c) + Split(y, c)
  {
    Assoc(first, [c] + rest, [c] + y);
    Assoc([c], rest, [c] + y);
    SplitAtFirst(first, c, rest + ([c] + y));
    SplitAtFirst(first, c, rest);
    Assoc([first], Split(rest, c), Split(y, c));
  }

  /** What a text-mode read makes of one character and, after a carriage return, of the next. */
  lemma TranslateStep(c: char, s: string)
    ensures c != '\r' ==> Translate([c] + s) == [c] + Translate(s)
    ensures c == '\r' && !(s != "" && s[0] == '\n') ==> Translate([c] + s) == ['\n'] + Translate(s)
    ensures c == '\r' && s != "" && s[0] == '\n' ==> Translate([c] + s) == ['\n'] + Translate(s[1..])
  {
    assert ([c] + s)[1..] == s;
    assert s != "" ==> ([c] + s)[2..] == s[1..];
  }

  /** A line feed ends the line before it, so what follows is translated on its own. */
  lemma {:induction false} TranslateConcat(a: string, b: string)
    ensures Translate((a + "\n") + b) == Translate(a + "\n") + Translate(b)
    decreases |a|
  {
    if a == "" {
      TranslateStep('\n', "");
      TranslateStep('\n', b);
      assert (a + "\n") + b == ['\n'] + b && a + "\n" == ['\n'] + "";
    } else {
      var t := a[1..];
      assert (a + "\n") + b == [a[0]] + ((t + "\n") + b);
      assert a + "\n" == [a[0]] + (t + "\n");
      TranslateConcat(t, b);
      TranslateStep(a[0], (t + "\n") + b);
      TranslateStep(a[0], t + "\n");
      Assoc([a[0]], Translate(t + "\n"), Translate(b));
      Assoc(['\n'], Translate(t + "\n"), Translate(b));
      if a[0] == '\r' && (t + "\n")[0] == '\n' {
        if t != "" {
          TranslateConcat(t[1..], b);
        }
        AfterReturn(t, b);
      }
    }
  }

  lemma AfterReturn(t: string, b: string)
    requires (t + "\n")[0] == '\n'
    requires t != "" ==> Translate((t[1..] + "\n") + b) == Translate(t[1..] + "\n") + Translate(b)
    ensures ['\n'] + Translate(((t + "\n") + b)[1..]) == (['\n'] + Translate((t + "\n")[1..])) + Translate(b)
  {
    if t == "" {
      assert ((t + "\n") + b)[1..] == b && (t + "\n")[1..] == "";
    } else {
      assert ((t + "\n") + b)[1..] == (t[1..] + "\n") + b && (t + "\n")[1..] == t[1..] + "\n";
      Assoc(['\n'], Translate(t[1..] + "\n"), Translate(b));
    }
  }

  lemma {:induction false} TranslateEnds(a: string)
    ensures Translate(a + "\n") != "" && Translate(a + "\n")[|Translate(a + "\n")| - 1] == '\n'
    decreases |a|
  {
    if a == "" {
      assert ("" + "\n")[1..] == "";
    } else {
      assert (a + "\n")[1..] == a[1..] + "\n";
      TranslateEnds(a[1..]);
      if a[0] == '\r' && |a| > 1 && a[1] == '\n' {
        assert (a + "\n")[2..] == a[2..] + "\n";
        TranslateEnds(a[2..]);
      } else if a == "\r" {
        assert (a + "\n")[2..] == "";
      }
    }
  }

  /** The translated text up to its final line feed. */
  function Inside(a: string): string {
    TranslateEnds(a);
    Translate(a + "\n")[..|Translate(a + "\n")| - 1]
  }

  lemma LinesOfTerminated(a: string)
    ensures FileLines(a + "\n") == Split(Inside(a), '\n')
  {
    TranslateEnds(a);
    var x := Inside(a);
    assert Translate(a + "\n") == x + (['\n'] + "");
    SplitConcat(x, '\n', "");
  }

  lemma LinesOfTwo(x: string, t: string)
    ensures DropFinalEmpty(Split(x + (['\n'] + t), '\n')) == Split(x, '\n') + DropFinalEmpty(Split(t, '\n'))
  {
    SplitConcat(x, '\n', t);
    DropAppend(Split(x, '\n'), Split(t, '\n'));
  }

  /** A text file that is two pieces, the first ending in a line feed, has the lines of both. */
  lemma FileLinesConcat(a: string, b: string)
    ensures FileLines((a + "\n") + b) == FileLines(a + "\n") + FileLines(b)
  {
    TranslateConcat(a, b);
    TranslateEnds(a);
    LinesOfTwo(Inside(a), Translate(b));
    LinesOfTerminated(a);
    LastApart(Translate(a + "\n"), Translate(b));
  }

  lemma LastApart(s: string, t: string)
    requires s != "" && s[|s| - 1] == '\n'
    ensures s + t == s[..|s| - 1] + (['\n'] + t)
  {
  }

  lemma DropAppend(a: seq<string>, b: seq<string>)
    requires b != []
    ensures DropFinalEmpty(a + b) == a + DropFinalEmpty(b)
  {
    assert (a + b)[|a + b| - 1] == b[|b| - 1];
    assert (a + b)[..|a + b| - 1] == a + b[..|b| - 1];
  }

  /** The lines of one line that was written with a line feed after it: more than one when it has breaks in it. */
  function Terminated(line: string): seq<string> {
    FileLines(line + "\n")
  }

  /** A file that is written line by line has the lines of each. */
  lemma {:induction false} FileLinesEach(lines: seq<string>)
    ensures FileLines(Unlines(lines)) == FlatMap(lines, Terminated)
  {
    if lines != [] {
      FileLinesEach(lines[1..]);
      UnlinesCons(lines[0], lines[1..]);
      assert [lines[0]] + lines[1..] == lines;
      FileLinesConcat(lines[0], Unlines(lines[1..]));
    }
  }

  lemma DataLinesConcat(a: string, b: string)
    ensures DataLines((a + "\n") + b) == DataLines(a + "\n") + DataLines(b)
  {
    FileLinesConcat(a, b);
    FilterAppend(FileLines(a + "\n"), FileLines(b), IsData);
  }

  lemma LineApart(line: string, rest: seq<string>)
    ensures DataLines(Unlines([line] + rest)) == DataLines(line + "\n") + DataLines(Unlines(rest))
  {
    UnlinesCons(line, rest);
    DataLinesConcat(line, Unlines(rest));
  }

  lemma UnlinesCons(line: string, rest: seq<string>)
    ensures Unlines([line] + rest) == (line + "\n") + Unlines(rest)
  {
    assert ([line] + rest)[1..] == rest;
    Assoc(line, "\n", Unlines(rest));
  }

  // ----- heads -----

  /** The first line of a head. */
  function FirstLine(head: string): string {
    Split(Inside(head), '\n')[0]
  }

  /** The lines of a head after its first one. */
  function Further(head: string): seq<string> {
    Split(Inside(head), '\n')[1..]
  }

  /** Further lines of a head, should it have any, are blank or comments. */
  predicate Harmless(head: string) {
    forall l :: l in Further(head) ==> !IsData(l)
  }

  lemma {:induction false} TranslatePrefix(p: string, t: string)
    requires NoBreak(p)
    ensures Translate(p + t) == p + Translate(t)
  {
    if p == "" {
      assert p + t == t;
    } else {
      var q := p[1..];
      assert p[0] in p && forall c :: c in q ==> c in p;
      assert p == [p[0]] + q && p + t == [p[0]] + (q + t);
      TranslatePrefix(q, t);
      TranslateStep(p[0], q + t);
      Assoc([p[0]], q, Translate(t));
    }
  }

  /** The stamp stands in front of the first line of the head. */
  lemma StampedLines(p: string, head: string)
    requires NoBreak(p)
    ensures FileLines((p + head) + "\n") == [p + FirstLine(head)] + Further(head)
  {
    assert (p + head) + "\n" == p + (head + "\n");
    TranslatePrefix(p, head + "\n");
    TranslateEnds(head);
    TranslateEnds(p + head);
    assert Inside(p + head) == p + Inside(head);
    LinesOfTerminated(p + head);
    PrefixedSplit(p, Inside(head), '\n');
  }

  lemma PrefixedSplit(p: string, x: string, c: char)
    requires c !in p
    ensures Split(p + x, c) == [p + Split(x, c)[0]] + Split(x, c)[1..]
  {
    var k := Strings.Find(x, c);
    var s := p + x;
    forall i | 0 <= i < |p| + k ensures s[i] != c {
      assert i < |p| ==> s[i] == p[i] && p[i] in p;
      assert i >= |p| ==> s[i] == x[i - |p|];
    }
    assert k < |x| ==> s[|p| + k] == c;
    assert Strings.Find(s, c) == |p| + k;
    if k < |x| {
      assert s[..|p| + k] == p + x[..k];
      assert s[|p| + k + 1..] == x[k + 1..];
    }
  }

  /** Of a stamp line and what its head adds to it, the emitter sees the further data lines of the head. */
  lemma StampedData(p: string, head: string)
    requires NoBreak(p) && p != "" && p[0] == '#'
    ensures DataLines((p + head) + "\n") == Filter(Further(head), IsData)
  {
    StampedLines(p, head);
    var first := p + FirstLine(head);
    assert first[0] == '#';
    assert "#" <= first;
    assert ([first] + Further(head))[1..] == Further(head);
  }

  lemma HarmlessIsNone(head: string)
    ensures Filter(Further(head), IsData) == [] <==> Harmless(head)
  {
    if Filter(Further(head), IsData) != [] {
      assert Filter(Further(head), IsData)[0] in Filter(Further(head), IsData);
    }
  }

  lemma {:induction false} NoBreakInside(head: string)
    requires NoBreak(head)
    ensures Translate(head + "\n") == head + "\n"
  {
    assert Translate("\n") == "\n" by {
      assert "\n"[1..] == "";
    }
    TranslatePrefix(head, "\n");
  }

  /** A head on one line is harmless. */
  lemma OneLineHarmless(head: string)
    requires NoBreak(head)
    ensures Harmless(head)
  {
    NoBreakInside(head);
    assert Inside(head) == head;
    assert Strings.Find(head, '\n') == |head|;
    assert Split(head, '\n') == [head];
  }
}
