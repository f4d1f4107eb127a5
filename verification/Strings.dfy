/** The text operations of Python that the tools rely on: splitting, joining, stripping,
    replacing, and reading a text file line by line. */
module Strings {

  /** `str.isspace` on one character. */
  predicate IsSpace(c: char) {
    var n := c as int;
    || 9 <= n <= 13 || 28 <= n <= 32 || n == 0x85 || n == 0xA0 || n == 0x1680
    || 0x2000 <= n <= 0x200A || n == 0x2028 || n == 0x2029 || n == 0x202F || n == 0x205F || n == 0x3000
  }

  /** The negation of the truth value of `s.strip()`. */
  predicate Blank(s: string) {
    forall c :: c in s ==> IsSpace(c)
  }

  /** `if s.strip()` */
  predicate HasText(s: string) {
    !Blank(s)
  }

  predicate StartsWith(s: string, prefix: string) {
    prefix <= s
  }

  predicate EndsWith(s: string, suffix: string) {
    |suffix| <= |s| && s[|s| - |suffix|..] == suffix
  }

  /** The index of the first `c`, or the length when there is none. */
  function Find(s: string, c: char): (k: nat)
    ensures k <= |s|
    ensures forall i :: 0 <= i < k ==> s[i] != c
    ensures k < |s| ==> s[k] == c
  {
    if s == "" || s[0] == c then 0 else 1 + Find(s[1..], c)
  }

  /** `s.split(c)` */
  function Split(s: string, c: char): (parts: seq<string>)
    ensures parts != []
    ensures forall p :: p in parts ==> c !in p && forall x :: x in p ==> x in s
    decreases |s|
  {
    var k := Find(s, c);
    if k == |s| then [s] else [s[..k]] + Split(s[k + 1..], c)
  }

  /** `sep.join(parts)` */
  function Join(sep: string, parts: seq<string>): string {
    if parts == [] then ""
    else if |parts| == 1 then parts[0]
    else parts[0] + (sep + Join(sep, parts[1..]))
  }

  lemma SplitAtFirst(p: string, c: char, rest: string)
    requires c !in p
    ensures Split(p + ([c] + rest), c) == [p] + Split(rest, c)
  {
    var s := p + ([c] + rest);
    assert s[|p|] == c;
    assert forall i :: 0 <= i < |p| ==> s[i] == p[i];
    assert Find(s, c) == |p|;
    assert s[..|p|] == p;
    assert s[|p| + 1..] == rest;
  }

  /** Splitting undoes joining when no part contains the separator. */
  lemma {:induction false} SplitJoin(parts: seq<string>, c: char)
    requires parts != []
    requires forall p :: p in parts ==> c !in p
    ensures Split(Join([c], parts), c) == parts
  {
    assert parts[0] in parts;
    if |parts| == 1 {
      assert Find(parts[0], c) == |parts[0]|;
    } else {
      var tail := Join([c], parts[1..]);
      SplitJoin(parts[1..], c);
      SplitAtFirst(parts[0], c, tail);
      assert Join([c], parts) == parts[0] + ([c] + tail);
      assert [parts[0]] + parts[1..] == parts;
    }
  }

  lemma {:induction false} JoinChars(sep: string, parts: seq<string>, c: char)
    requires c in Join(sep, parts)
    ensures c in sep || exists p :: p in parts && c in p
  {
    if |parts| > 1 && c !in parts[0] && c !in sep {
      JoinChars(sep, parts[1..], c);
      var p :| p in parts[1..] && c in p;
      assert p in parts;
    } else if parts != [] && c in parts[0] {
      assert parts[0] in parts;
    }
  }

  /** Universal newlines: what a text-mode read delivers. */
  function Translate(s: string): (t: string)
    ensures '\r' !in t
    ensures '\r' !in s ==> t == s
  {
    if s == "" then ""
    else if s[0] != '\r' then [s[0]] + Translate(s[1..])
    else if |s| > 1 && s[1] == '\n' then ['\n'] + Translate(s[2..])
    else ['\n'] + Translate(s[1..])
  }

  function DropFinalEmpty(parts: seq<string>): seq<string>
    requires parts != []
  {
    if parts[|parts| - 1] == "" then parts[..|parts| - 1] else parts
  }

  /** `[ln.rstrip("\n") for ln in fh]` */
  function FileLines(text: string): (lines: seq<string>)
    ensures forall l :: l in lines ==> '\n' !in l && '\r' !in l
  {
    DropFinalEmpty(Split(Translate(text), '\n'))
  }

  predicate NoBreak(s: string) {
    '\n' !in s && '\r' !in s
  }

  /** A text that may stand in one column of a tab-separated file. */
  predicate Field(s: string) {
    NoBreak(s) && '\t' !in s
  }

  /** Every line followed by a line feed. */
  function Unlines(lines: seq<string>): string {
    if lines == [] then "" else lines[0] + (['\n'] + Unlines(lines[1..]))
  }

  lemma {:induction false} UnlinesAppend(a: seq<string>, b: seq<string>)
    ensures Unlines(a + b) == Unlines(a) + Unlines(b)
  {
    if a == [] {
      assert a + b == b;
    } else {
      assert (a + b)[1..] == a[1..] + b;
      UnlinesAppend(a[1..], b);
    }
  }

  lemma {:induction false} UnlinesSnoc(lines: seq<string>, l: string)
    ensures Unlines(lines + [l]) == Unlines(lines) + (l + "\n")
  {
    UnlinesAppend(lines, [l]);
    assert Unlines([l]) == l + "\n";
  }

  lemma {:induction false} UnlinesIsJoin(lines: seq<string>)
    requires lines != []
    ensures Unlines(lines) == Join("\n", lines) + "\n"
  {
    if |lines| == 1 {
      assert Unlines(lines[1..]) == "";
      assert lines[0] + "\n" == lines[0] + (['\n'] + "");
    } else {
      UnlinesIsJoin(lines[1..]);
    }
  }

  lemma {:induction false} SplitUnlines(lines: seq<string>)
    requires forall l :: l in lines ==> NoBreak(l)
    ensures '\r' !in Unlines(lines)
    ensures Split(Unlines(lines), '\n') == lines + [""]
  {
    if lines == [] {
    } else {
      assert lines[0] in lines;
      SplitUnlines(lines[1..]);
      SplitAtFirst(lines[0], '\n', Unlines(lines[1..]));
    }
  }

  /** Reading back a file that was written line by line gives the lines. */
  lemma FileLinesOfUnlines(lines: seq<string>)
    requires forall l :: l in lines ==> NoBreak(l)
    ensures FileLines(Unlines(lines)) == lines
  {
    SplitUnlines(lines);
  }

  function StripLeft(s: string): (t: string)
    ensures forall c :: c in t ==> c in s
  {
    if s != "" && IsSpace(s[0]) then StripLeft(s[1..]) else s
  }

  function StripRight(s: string): (t: string)
    ensures forall c :: c in t ==> c in s
  {
    if s != "" && IsSpace(s[|s| - 1]) then StripRight(s[..|s| - 1]) else s
  }

  /** `s.strip()` */
  function Strip(s: string): (t: string)
    ensures forall c :: c in t ==> c in s
  {
    StripRight(StripLeft(s))
  }

  /** `s` is `core` between two blank texts, and `core` itself does not start or end blank. */
  ghost predicate Trimmed(s: string, lead: string, core: string, trail: string) {
    && s == lead + (core + trail) && Blank(lead) && Blank(trail)
    && (core != "" ==> !IsSpace(core[0]) && !IsSpace(core[|core| - 1]))
  }

  lemma {:induction false} LeftTrimmed(s: string) returns (lead: string)
    ensures s == lead + StripLeft(s) && Blank(lead)
    ensures StripLeft(s) != "" ==> !IsSpace(StripLeft(s)[0])
  {
    if s != "" && IsSpace(s[0]) {
      lead := LeftTrimmed(s[1..]);
      lead := [s[0]] + lead;
      assert s == [s[0]] + s[1..];
    } else {
      lead := "";
    }
  }

  lemma {:induction false} RightTrimmed(s: string) returns (trail: string)
    ensures s == StripRight(s) + trail && Blank(trail)
    ensures StripRight(s) != "" ==> !IsSpace(StripRight(s)[|StripRight(s)| - 1])
    ensures StripRight(s) <= s
  {
    if s != "" && IsSpace(s[|s| - 1]) {
      var n := |s| - 1;
      trail := RightTrimmed(s[..n]);
      trail := trail + [s[n]];
      assert s == s[..n] + [s[n]];
    } else {
      trail := "";
    }
  }

  lemma {:induction false} BlankLeft(lead: string, t: string)
    requires Blank(lead) && (t != "" ==> !IsSpace(t[0]))
    ensures StripLeft(lead + t) == t
  {
    if lead == "" {
      assert lead + t == t;
    } else {
      assert (lead + t)[1..] == lead[1..] + t && lead[0] in lead;
      assert forall c :: c in lead[1..] ==> c in lead;
      BlankLeft(lead[1..], t);
    }
  }

  lemma {:induction false} BlankRight(t: string, trail: string)
    requires Blank(trail) && (t != "" ==> !IsSpace(t[|t| - 1]))
    ensures StripRight(t + trail) == t
  {
    if trail == "" {
      assert t + trail == t;
    } else {
      var n := |trail| - 1;
      assert (t + trail)[..|t + trail| - 1] == t + trail[..n] && (t + trail)[|t + trail| - 1] == trail[n] && trail[n] in trail;
      assert forall c :: c in trail[..n] ==> c in trail;
      BlankRight(t, trail[..n]);
    }
  }

  /** Stripping takes the blanks off both ends and nothing else. */
  lemma StripExact(s: string, core: string)
    ensures Strip(s) == core <==> exists lead, trail :: Trimmed(s, lead, core, trail)
  {
    if Strip(s) == core {
      var lead := LeftTrimmed(s);
      var trail := RightTrimmed(StripLeft(s));
      assert Trimmed(s, lead, core, trail);
    }
    if lead, trail :| Trimmed(s, lead, core, trail) {
      if core == "" {
        assert s == (lead + trail) + "" && Blank(lead + trail);
        BlankLeft(lead + trail, "");
      } else {
        BlankLeft(lead, core + trail);
        BlankRight(core, trail);
      }
    }
  }

  /** The blanks among the ASCII characters. */
  lemma AsciiSpaces(c: char)
    requires c as int < 128
    ensures IsSpace(c) <==> c in {' ', '\t', '\n', '\r', 0x0B as char, 0x0C as char, 0x1C as char, 0x1D as char, 0x1E as char, 0x1F as char}
  {
  }

  /** `pat in s` */
  predicate Contains(s: string, pat: string) {
    pat <= s || (s != "" && Contains(s[1..], pat))
  }

  /** `s.replace(pat, sub)`: non-overlapping occurrences, from the left. */
  function Replace(s: string, pat: string, sub: string): string
    requires pat != ""
    decreases |s|
  {
    if s == "" then ""
    else if pat <= s then sub + Replace(s[|pat|..], pat, sub)
    else [s[0]] + Replace(s[1..], pat, sub)
  }

  lemma Assoc<T>(a: seq<T>, b: seq<T>, c: seq<T>)
    ensures a + (b + c) == (a + b) + c
  {
  }

  function Filter<T(!new)>(xs: seq<T>, keep: T -> bool): (ys: seq<T>)
    ensures forall x :: x in ys <==> x in xs && keep(x)
  {
    if xs == [] then []
    else if keep(xs[0]) then [xs[0]] + Filter(xs[1..], keep)
    else Filter(xs[1..], keep)
  }

  lemma {:induction false} FilterAppend<T(!new)>(a: seq<T>, b: seq<T>, keep: T -> bool)
    ensures Filter(a + b, keep) == Filter(a, keep) + Filter(b, keep)
  {
    if a == [] {
      assert a + b == b;
    } else {
      assert (a + b)[1..] == a[1..] + b;
      FilterAppend(a[1..], b, keep);
    }
  }

  /** What `f` makes of each member, end to end. */
  function FlatMap<T, U>(xs: seq<T>, f: T -> seq<U>): seq<U> {
    if xs == [] then [] else f(xs[0]) + FlatMap(xs[1..], f)
  }

  lemma {:induction false} FlatMapAppend<T, U>(a: seq<T>, b: seq<T>, f: T -> seq<U>)
    ensures FlatMap(a + b, f) == FlatMap(a, f) + FlatMap(b, f)
  {
    if a == [] {
      assert a + b == b;
    } else {
      assert (a + b)[1..] == a[1..] + b && (a + b)[0] == a[0];
      FlatMapAppend(a[1..], b, f);
      Assoc(f(a[0]), FlatMap(a[1..], f), FlatMap(b, f));
    }
  }

  lemma FlatMapSnoc<T, U>(xs: seq<T>, i: nat, f: T -> seq<U>)
    requires i < |xs|
    ensures FlatMap(xs[..i + 1], f) == FlatMap(xs[..i], f) + f(xs[i])
  {
    assert xs[..i + 1] == xs[..i] + [xs[i]];
    FlatMapAppend(xs[..i], [xs[i]], f);
    assert FlatMap([xs[i]], f) == f(xs[i]) + [];
  }

  lemma {:induction false} FlatMapMembers<T, U>(xs: seq<T>, f: T -> seq<U>, y: U)
    ensures y in FlatMap(xs, f) <==> exists x :: x in xs && y in f(x)
  {
    if xs != [] {
      FlatMapMembers(xs[1..], f, y);
      assert xs == [xs[0]] + xs[1..];
    }
  }

  lemma {:induction false} FilterAll<T(!new)>(xs: seq<T>, keep: T -> bool)
    requires forall x :: x in xs ==> keep(x)
    ensures Filter(xs, keep) == xs
  {
    if xs == [] {
    } else {
      FilterAll(xs[1..], keep);
    }
  }
}
