/** The names that the lines of a std file open functions of. */
module DeclaredNames {
  import opened Strings
  import opened Tsv

  predicate IsNameStart(c: char) {
    'a' <= c <= 'z' || 'A' <= c <= 'Z' || c == '_'
  }

  predicate IsNameChar(c: char) {
    IsNameStart(c) || '0' <= c <= '9'
  }

  predicate IsIdentifier(s: string) {
    s != "" && IsNameStart(s[0]) && forall c :: c in s ==> IsNameChar(c)
  }

  /** The same, character by character: a letter or an underscore, then letters, digits and underscores. */
  ghost predicate Identifier(s: string) {
    && s != "" && !('0' <= s[0] <= '9')
    && forall i :: 0 <= i < |s| ==> 'a' <= s[i] <= 'z' || 'A' <= s[i] <= 'Z' || '0' <= s[i] <= '9' || s[i] == '_'
  }

  lemma IdentifierMeaning(s: string)
    ensures IsIdentifier(s) <==> Identifier(s)
  {
    if IsIdentifier(s) {
      forall i | 0 <= i < |s| ensures IsNameChar(s[i]) {
        assert s[i] in s;
      }
    }
    if Identifier(s) {
      forall c | c in s ensures IsNameChar(c) {
        var i :| 0 <= i < |s| && s[i] == c;
      }
    }
  }

  function SpaceLen(s: string): (k: nat)
    ensures k <= |s|
  {
    if s == "" || !IsSpace(s[0]) then 0 else 1 + SpaceLen(s[1..])
  }

  function NameLen(s: string): (k: nat)
    ensures k <= |s|
    ensures forall i :: 0 <= i < k ==> IsNameChar(s[i])
  {
    if s == "" || !IsNameChar(s[0]) then 0 else 1 + NameLen(s[1..])
  }

  /** The part `fn\s+([A-Za-z_][A-Za-z0-9_]*)\s*\(` of the pattern, and its group. */
  function MatchFn(s: string): (name: Option<string>)
    ensures name.Some? ==> IsIdentifier(name.value)
  {
    if !StartsWith(s, "fn") then None
    else
      var a := SpaceLen(s[2..]);
      var t := s[2 + a..];
      var k := NameLen(t);
      if a == 0 || k == 0 || !IsNameStart(t[0]) then None
      else
        var u := t[k..];
        var v := u[SpaceLen(u)..];
        if StartsWith(v, "(") then Some(t[..k]) else None
  }

  /** The characters `\s+` and `\s*` run over. */
  lemma {:induction false} SpaceRun(gap: string, rest: string)
    requires Blank(gap) && (rest == "" || !IsSpace(rest[0]))
    ensures SpaceLen(gap + rest) == |gap|
  {
    if gap == "" {
      assert gap + rest == rest;
    } else {
      assert gap[0] in gap && forall c :: c in gap[1..] ==> c in gap;
      assert (gap + rest)[1..] == gap[1..] + rest;
      SpaceRun(gap[1..], rest);
    }
  }

  lemma {:induction false} SpacesAreBlank(s: string)
    ensures Blank(s[..SpaceLen(s)])
    ensures SpaceLen(s) < |s| ==> !IsSpace(s[SpaceLen(s)])
  {
    if s != "" && IsSpace(s[0]) {
      SpacesAreBlank(s[1..]);
      assert s[..SpaceLen(s)] == [s[0]] + s[1..][..SpaceLen(s[1..])];
    }
  }

  lemma {:induction false} NameRun(name: string, rest: string)
    requires (forall c :: c in name ==> IsNameChar(c)) && (rest == "" || !IsNameChar(rest[0]))
    ensures NameLen(name + rest) == |name|
  {
    if name == "" {
      assert name + rest == rest;
    } else {
      assert name[0] in name && forall c :: c in name[1..] ==> c in name;
      assert (name + rest)[1..] == name[1..] + rest;
      NameRun(name[1..], rest);
    }
  }

  /** A text that opens a function of this name: `fn`, a gap, the name, perhaps a gap, and a parenthesis. */
  ghost predicate OpensFn(s: string, name: string, gap: string, space: string, rest: string) {
    && gap != "" && Blank(gap) && Blank(space) && Identifier(name)
    && s == "fn" + (gap + (name + (space + ("(" + rest))))
  }

  ghost predicate Opens(s: string, name: string) {
    exists gap, space, rest :: OpensFn(s, name, gap, space, rest)
  }

  lemma MatchFnExact(s: string, name: string)
    ensures MatchFn(s) == Some(name) <==> Opens(s, name)
  {
    if MatchFn(s) == Some(name) {
      var gap, space, rest := MatchFnSound(s, name);
    }
    if gap, space, rest :| OpensFn(s, name, gap, space, rest) {
      IdentifierMeaning(name);
      MatchFnFinds(name, gap, space, rest);
    }
  }

  lemma MatchFnSound(s: string, name: string) returns (gap: string, space: string, rest: string)
    requires MatchFn(s) == Some(name)
    ensures OpensFn(s, name, gap, space, rest)
  {
    var a := SpaceLen(s[2..]);
    var k := NameLen(s[2 + a..]);
    var u := s[2 + a..][k..];
    var b := SpaceLen(u);
    SpacesAreBlank(s[2..]);
    SpacesAreBlank(u);
    gap, space, rest := s[2..][..a], u[..b], u[b..][1..];
    OpensAt(s, a, k, b);
  }

  lemma OpensAt(s: string, a: nat, k: nat, b: nat)
    requires StartsWith(s, "fn") && 2 + a + k <= |s|
    requires var u := s[2 + a..][k..];
      && a > 0 && Blank(s[2..][..a]) && IsIdentifier(s[2 + a..][..k])
      && b <= |u| && Blank(u[..b]) && StartsWith(u[b..], "(")
    ensures var u := s[2 + a..][k..]; OpensFn(s, s[2 + a..][..k], s[2..][..a], u[..b], u[b..][1..])
  {
    var t := s[2 + a..];
    var u := t[k..];
    IdentifierMeaning(t[..k]);
    Cut(u, b);
    Cut(t, k);
    Cut(s[2..], a);
    Cut(s, 2);
    assert s[2..][a..] == t;
    assert u[b..] == "(" + u[b..][1..];
    assert s[..2] == "fn";
  }

  lemma Cut(s: string, i: nat)
    requires i <= |s|
    ensures s == s[..i] + s[i..]
  {
  }

  lemma MatchFnFinds(name: string, gap: string, space: string, rest: string)
    requires gap != "" && Blank(gap) && Blank(space) && IsIdentifier(name)
    ensures MatchFn("fn" + (gap + (name + (space + ("(" + rest))))) == Some(name)
  {
    var u := space + ("(" + rest);
    var t := name + u;
    var s := "fn" + (gap + t);
    assert s[2..] == gap + t;
    SpaceRun(gap, t);
    assert s[2 + |gap|..] == t;
    assert u[0] == '(' || u[0] in space;
    NameRun(name, u);
    SpaceRun(space, "(" + rest);
  }

  /** `fn_re.match(s)`: an optional `pub` and spaces before the rest. */
  function MatchDecl(s: string): (name: Option<string>)
    ensures name.Some? ==> IsIdentifier(name.value)
  {
    if StartsWith(s, "pub") && SpaceLen(s[3..]) > 0 then MatchFn(s[3 + SpaceLen(s[3..])..]) else MatchFn(s)
  }

  /** The text is a gap after `pub`, and then `t`. */
  ghost predicate Public(s: string, gap: string, t: string) {
    gap != "" && Blank(gap) && s == "pub" + (gap + t)
  }

  /** The scan finds a name exactly when the line can be read as the opening of a function of that name, `pub` or not:
      taking every character the pattern allows never misses a reading. */
  lemma MatchDeclExact(s: string, name: string)
    ensures MatchDecl(s) == Some(name) <==> Opens(s, name) || exists gap, t :: Public(s, gap, t) && Opens(t, name)
  {
    MatchFnExact(s, name);
    if MatchDecl(s) == Some(name) && StartsWith(s, "pub") && SpaceLen(s[3..]) > 0 {
      var gap, t := PublicSound(s);
      MatchFnExact(t, name);
    }
    if Opens(s, name) {
      PlainOpens(s, name);
    }
    if gap, t :| Public(s, gap, t) && Opens(t, name) {
      PublicFinds(s, gap, t, name);
      MatchFnExact(t, name);
    }
  }

  lemma PlainOpens(s: string, name: string)
    requires Opens(s, name)
    ensures s != "" && s[0] == 'f' && !StartsWith(s, "pub")
  {
    var gap, space, rest :| OpensFn(s, name, gap, space, rest);
    assert s[0] == "fn"[0];
  }

  lemma PublicSound(s: string) returns (gap: string, t: string)
    requires StartsWith(s, "pub") && SpaceLen(s[3..]) > 0
    ensures Public(s, gap, t) && t == s[3 + SpaceLen(s[3..])..]
  {
    var n := SpaceLen(s[3..]);
    SpacesAreBlank(s[3..]);
    gap, t := s[3..][..n], s[3..][n..];
    Cut(s, 3);
    Cut(s[3..], n);
  }

  lemma PublicFinds(s: string, gap: string, t: string, name: string)
    requires Public(s, gap, t) && Opens(t, name)
    ensures MatchDecl(s) == MatchFn(t)
  {
    PlainOpens(t, name);
    PublicGap(s, gap, t);
  }

  lemma PublicGap(s: string, gap: string, t: string)
    requires Public(s, gap, t) && t != "" && !IsSpace(t[0])
    ensures StartsWith(s, "pub") && SpaceLen(s[3..]) == |gap| && s[3 + |gap|..] == t
  {
    assert s[3..] == gap + t;
    SpaceRun(gap, t);
  }

  /** The name that a line of a std file opens a function of, if any. */
  function DeclaredName(line: string): Option<string> {
    MatchDecl(Strip(line))
  }

  /** The line, without the blanks around it, opens a function of this name, public or not. */
  ghost predicate DeclaresOn(line: string, name: string) {
    exists lead, core, trail :: Trimmed(line, lead, core, trail) && OpensPublicOrNot(core, name)
  }

  ghost predicate OpensPublicOrNot(core: string, name: string) {
    Opens(core, name) || exists gap, t :: Public(core, gap, t) && Opens(t, name)
  }

  /** A line declares a name exactly when it can be read so. */
  lemma DeclaredExactly(line: string, name: string)
    ensures DeclaredName(line) == Some(name) <==> DeclaresOn(line, name)
  {
    MatchDeclExact(Strip(line), name);
    StripExact(line, Strip(line));
    if lead, core, trail :| Trimmed(line, lead, core, trail) && OpensPublicOrNot(core, name) {
      StripExact(line, core);
    }
  }

  lemma DeclaredIsIdentifier(line: string, name: string)
    requires DeclaresOn(line, name)
    ensures IsIdentifier(name)
  {
    DeclaredExactly(line, name);
  }

  /** Blanks around a line do not matter. */
  lemma IndentedDeclares(lead: string, line: string, trail: string, name: string)
    requires Blank(lead) && Blank(trail) && DeclaresOn(line, name)
    ensures DeclaredName(lead + (line + trail)) == Some(name)
  {
    var l, core, r :| Trimmed(line, l, core, r) && OpensPublicOrNot(core, name);
    assert lead + (line + trail) == (lead + l) + (core + (r + trail));
    assert Trimmed(lead + (line + trail), lead + l, core, r + trail);
    DeclaredExactly(lead + (line + trail), name);
  }
}
