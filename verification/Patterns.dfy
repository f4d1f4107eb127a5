/** Replacing one text by another, in terms of where the text is cut. */
module Patterns {
  import opened Strings

  /** A copy of the pattern starts at `j`. */
  ghost predicate Occurs(s: string, pat: string, j: nat) {
    j + |pat| <= |s| && s[j..j + |pat|] == pat
  }

  /** The pattern stands nowhere in the text. */
  ghost predicate Lacks(s: string, pat: string) {
    forall j: nat :: !Occurs(s, pat, j)
  }

  lemma OccursLater(s: string, pat: string, j: nat)
    requires s != ""
    ensures Occurs(s[1..], pat, j) <==> Occurs(s, pat, j + 1)
  {
    if j + 1 + |pat| <= |s| {
      assert s[1..][j..j + |pat|] == s[j + 1..j + 1 + |pat|];
    }
  }

  lemma LacksTail(s: string, pat: string)
    requires s != "" && Lacks(s, pat)
    ensures Lacks(s[1..], pat)
  {
    forall j: nat ensures !Occurs(s[1..], pat, j) {
      OccursLater(s, pat, j);
    }
  }

  lemma OccursFirst(s: string, pat: string)
    ensures Occurs(s, pat, 0) <==> pat <= s
  {
  }

  lemma {:induction false} ContainsMeaning(s: string, pat: string)
    requires pat != ""
    ensures Contains(s, pat) <==> !Lacks(s, pat)
  {
    OccursFirst(s, pat);
    if s != "" {
      ContainsMeaning(s[1..], pat);
      if j: nat :| Occurs(s[1..], pat, j) {
        OccursLater(s, pat, j);
      }
      if j: nat :| Occurs(s, pat, j) {
        if j > 0 {
          OccursLater(s, pat, j - 1);
        }
      }
    }
  }

  /** The pieces of a text around the copies of a pattern. */
  ghost predicate CutAt(s: string, pat: string, pieces: seq<string>) {
    pieces != [] && s == Join(pat, pieces) && forall p :: p in pieces ==> Lacks(p, pat)
  }

  /** Two copies cannot overlap. */
  ghost predicate Unbordered(pat: string) {
    forall n :: 0 < n < |pat| ==> pat[n..] != pat[..|pat| - n]
  }

  lemma {:induction false} ReplaceNone(s: string, pat: string, sub: string)
    requires pat != "" && Lacks(s, pat)
    ensures Replace(s, pat, sub) == s
  {
    OccursFirst(s, pat);
    if s != "" {
      LacksTail(s, pat);
      ReplaceNone(s[1..], pat, sub);
    }
  }

  /** A copy that starts before another one, and not on it, overlaps it. */
  lemma Overlap(p: string, pat: string, rest: string)
    requires |p| < |pat| && pat <= p + (pat + rest)
    ensures pat[|p|..] == pat[..|pat| - |p|]
  {
    var s := p + (pat + rest);
    assert s[|p|..|pat|] == (pat + rest)[..|pat| - |p|] == pat[..|pat| - |p|];
    assert pat == s[..|pat|];
  }

  lemma StartsWithin(p: string, pat: string, rest: string)
    requires |pat| <= |p| && pat <= p + rest
    ensures pat <= p
  {
    assert p == (p + rest)[..|p|];
  }

  lemma NotEarlier(p: string, pat: string, rest: string)
    requires p != "" && pat != "" && Lacks(p, pat) && Unbordered(pat)
    ensures !(pat <= p + (pat + rest))
  {
    if pat <= p + (pat + rest) {
      OccursFirst(p, pat);
      if |p| < |pat| {
        Overlap(p, pat, rest);
      } else {
        StartsWithin(p, pat, pat + rest);
      }
    }
  }

  lemma {:induction false} ReplaceFirst(p: string, pat: string, rest: string, sub: string)
    requires pat != "" && Lacks(p, pat) && Unbordered(pat)
    ensures Replace(p + (pat + rest), pat, sub) == p + (sub + Replace(rest, pat, sub))
  {
    var s := p + (pat + rest);
    if p == "" {
      assert s == pat + rest && s[|pat|..] == rest;
    } else {
      NotEarlier(p, pat, rest);
      LacksTail(p, pat);
      ReplaceFirst(p[1..], pat, rest, sub);
      assert s[1..] == p[1..] + (pat + rest);
    }
  }

  /** Replacing puts the other text between the same pieces. */
  lemma {:induction false} ReplaceJoined(pieces: seq<string>, pat: string, sub: string)
    requires pat != "" && Unbordered(pat) && pieces != [] && forall p :: p in pieces ==> Lacks(p, pat)
    ensures Replace(Join(pat, pieces), pat, sub) == Join(sub, pieces)
  {
    assert pieces[0] in pieces;
    if |pieces| == 1 {
      ReplaceNone(pieces[0], pat, sub);
    } else {
      ReplaceJoined(pieces[1..], pat, sub);
      ReplaceFirst(pieces[0], pat, Join(pat, pieces[1..]), sub);
    }
  }

  /** The first copy, if there is one. */
  lemma {:induction false} FirstOccurrence(s: string, pat: string, n: nat) returns (j: nat)
    requires pat != "" && Occurs(s, pat, n)
    ensures Occurs(s, pat, j) && Lacks(s[..j], pat)
    decreases n
  {
    j := n;
    if i: nat :| Occurs(s[..n], pat, i) {
      assert s[..n][i..i + |pat|] == s[i..i + |pat|];
      j := FirstOccurrence(s, pat, i);
    }
  }

  lemma {:induction false} SomeCut(s: string, pat: string) returns (pieces: seq<string>)
    requires pat != ""
    ensures CutAt(s, pat, pieces)
    decreases |s|
  {
    if n: nat :| Occurs(s, pat, n) {
      var j := FirstOccurrence(s, pat, n);
      var more := SomeCut(s[j + |pat|..], pat);
      assert s == s[..j] + (pat + s[j + |pat|..]);
      pieces := [s[..j]] + more;
      assert pieces[1..] == more;
    } else {
      pieces := [s];
    }
  }

  /** Replacing, whatever the other text is: the text is cut at the copies of the pattern and joined again. */
  lemma ReplaceExact(s: string, pat: string, sub: string, t: string)
    requires pat != "" && Unbordered(pat)
    ensures Replace(s, pat, sub) == t <==> exists pieces :: CutAt(s, pat, pieces) && t == Join(sub, pieces)
  {
    var pieces := SomeCut(s, pat);
    ReplaceJoined(pieces, pat, sub);
    if pieces' :| CutAt(s, pat, pieces') && t == Join(sub, pieces') {
      ReplaceJoined(pieces', pat, sub);
    }
  }
}
