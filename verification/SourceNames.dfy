/** Which directory names a companion can carry: the name stands in a comment and in a string literal of its text. */
module SourceNames {
  import opened Strings
  import opened Tsv
  import opened Decimal
  import opened DemoName
  import opened SlaSyntax
  import opened SlaLexer
  import opened Rosetta

  // ----- comments -----

  /** The text, after `//`, is comment to its end: every further line of it is blank or a comment again. */
  predicate CommentSafe(t: string)
    decreases |t|
  {
    var k := LineLen(t);
    k == |t| || LinesSafe(t[k + 1..])
  }

  predicate LinesSafe(t: string)
    decreases |t|
  {
    t != ""
    && if IsWhite(t[0]) then LinesSafe(t[1..])
       else |t| > 1 && t[0] == '/' && t[1] == '/' && CommentSafe(t[2..])
  }

  /** A lower-case letter stands only after a letter. */
  ghost predicate TitledAt(t: string, i: nat, inWord: bool)
    requires i < |t|
  {
    'a' <= t[i] <= 'z' ==> if i == 0 then inWord else IsLetter(t[i - 1])
  }

  ghost predicate Titled(t: string, inWord: bool) {
    forall i :: 0 <= i < |t| ==> TitledAt(t, i, inWord)
  }

  lemma {:induction false} TitleCaseTitled(s: string, inWord: bool)
    ensures Titled(TitleCase(s, inWord), inWord)
  {
    if s != "" {
      TitleCaseTitled(s[1..], IsLetter(s[0]));
      var t, u := TitleCase(s, inWord), TitleCase(s[1..], IsLetter(s[0]));
      forall i | 0 <= i < |t| ensures TitledAt(t, i, inWord) {
        if i > 0 {
          assert t[i] == u[i - 1] && TitledAt(u, i - 1, IsLetter(s[0]));
          assert i > 1 ==> t[i - 1] == u[i - 2];
        }
      }
    }
  }

  lemma TitledJoin(a: string, b: string)
    requires Titled(a, false) && Titled(b, false)
    ensures Titled(a + b, false)
  {
    var t := a + b;
    forall i | 0 <= i < |t| ensures TitledAt(t, i, false) {
      if i >= |a| {
        assert t[i] == b[i - |a|] && TitledAt(b, i - |a|, false);
        assert i > |a| ==> t[i - 1] == b[i - |a| - 1];
      } else {
        assert t[i] == a[i] && TitledAt(a, i, false);
        assert i > 0 ==> t[i - 1] == a[i - 1];
      }
    }
  }

  /** So does any end of the text that a letter does not come before. */
  lemma TitledEnd(t: string, from: nat)
    requires 0 < from <= |t| && !IsLetter(t[from - 1])
    requires forall i :: from <= i < |t| ==> TitledAt(t, i, false)
    ensures Titled(t[from..], false)
  {
    forall i | 0 <= i < |t[from..]| ensures TitledAt(t[from..], i, false) {
      assert TitledAt(t, from + i, false);
    }
  }

  /** The part of the first comment that comes from the name. */
  function NameComment(name: string): string {
    Title(name) + "."
  }

  lemma NameCommentTitled(name: string)
    ensures Titled(NameComment(name), false)
    ensures NameComment(name) != "" && NameComment(name)[|NameComment(name)| - 1] == '.'
  {
    var words := Replace(AfterUnderscore(name), "_", " ");
    TitleCaseTitled(words, false);
    assert Titled(".", false);
    var n := match DemoNumber(name) case Some(m) => m case None => 0;
    assert Title(name) == Padded(n) + " " + TitleCase(words, false);
    assert Titled(Padded(n), false) by {
      forall i | 0 <= i < |Padded(n)| ensures TitledAt(Padded(n), i, false) {
        assert Padded(n)[i] in Padded(n);
      }
    }
    TitledJoin(Padded(n), " ");
    TitledJoin(Padded(n) + " ", TitleCase(words, false));
    TitledJoin(Title(name), ".");
  }

  /** Tokens that no declaration starts with. */
  predicate Stranger(ts: seq<Token>) {
    && ts != [] && ts[0] != Word("fn") && ts[0] != Word("test")
    && (ts[0] == Sym("@") ==> |ts| == 1 || ts[1] != Word("test"))
  }

  lemma LexCommentLine(line: string, k: string)
    requires '\n' !in line
    ensures Lex("//" + (line + ("\n" + k))) == Lex(k)
  {
    var s := "//" + (line + ("\n" + k));
    forall i | 0 <= i < |line| + 2 ensures s[i] != '\n' {
      assert i >= 2 ==> s[i] == line[i - 2] && line[i - 2] in line;
    }
    assert s[|line| + 2] == '\n';
    assert LineLen(s) == |line| + 2;
    assert s[|line| + 2..] == ['\n'] + k;
    LexWhite('\n', k);
  }

  lemma FurtherLines(t: string)
    requires t != "" && t[|t| - 1] == '.' && forall i :: LineLen(t) < i < |t| ==> TitledAt(t, i, false)
    requires LineLen(t) < |t|
    ensures var rest := t[LineLen(t) + 1..];
      rest != "" && rest[|rest| - 1] == '.' && Titled(rest, false)
  {
    TitledEnd(t, LineLen(t) + 1);
  }

  /** What follows the comments does not start with `test`. */
  predicate NoTest(ts: seq<Token>) {
    ts == [] || ts[0] != Word("test")
  }

  /** The first line of a comment leaves no token. */
  lemma FirstLineGone(t: string, k: string)
    requires LineLen(t) < |t|
    ensures Lex("//" + (t + ("\n" + k))) == Lex(t[LineLen(t) + 1..] + ("\n" + k))
  {
    var first, rest := t[..LineLen(t)], t[LineLen(t) + 1..];
    SplitAtBreak(t, LineLen(t));
    FirstLine(t, first, rest, k);
    LexCommentLine(first, rest + ("\n" + k));
  }

  lemma SplitAtBreak(t: string, n: nat)
    requires n < |t| && t[n] == '\n'
    ensures t == t[..n] + ("\n" + t[n + 1..])
  {
  }

  /** A safe comment leaves no token; an unsafe one leaves something that no declaration starts with. */
  lemma {:induction false} CommentEffect(t: string, k: string)
    requires t != "" && t[|t| - 1] == '.' && forall i :: LineLen(t) < i < |t| ==> TitledAt(t, i, false)
    requires NoTest(Lex(k))
    ensures CommentSafe(t) ==> Lex("//" + (t + ("\n" + k))) == Lex(k)
    ensures !CommentSafe(t) ==> Stranger(Lex("//" + (t + ("\n" + k))))
    decreases |t|
  {
    if LineLen(t) == |t| {
      LexCommentLine(t, k);
    } else {
      FirstLineGone(t, k);
      FurtherLines(t);
      LinesEffect(t[LineLen(t) + 1..], k);
    }
  }

  lemma LinesApart(first: string, rest: string, k: string)
    ensures (first + ("\n" + rest)) + ("\n" + k) == first + ("\n" + (rest + ("\n" + k)))
  {
    Assoc(first, "\n" + rest, "\n" + k);
    Assoc("\n", rest, "\n" + k);
  }

  lemma FirstLine(t: string, first: string, rest: string, k: string)
    requires t == first + ("\n" + rest)
    ensures t + ("\n" + k) == first + ("\n" + (rest + ("\n" + k)))
  {
    LinesApart(first, rest, k);
  }

  /** A word that starts with no lower-case letter is neither `fn` nor `test`. */
  lemma WordStart(s: string)
    requires s != "" && (IsLetter(s[0]) || s[0] == '_') && !('a' <= s[0] <= 'z')
    ensures Stranger(Lex(s))
  {
    var w := s[..WordLen(s)];
    assert Lex(s)[0] == Word(w);
    assert w[0] == s[0] && "fn"[0] == 'f' && "test"[0] == 't';
  }

  lemma MarkStart(s: string)
    requires s != "" && !IsWhite(s[0]) && !IsLetter(s[0]) && s[0] != '_' && s[0] != '@'
    requires !(s[0] == '/' && |s| > 1 && s[1] == '/')
    ensures Stranger(Lex(s))
  {
    if !IsDigit(s[0]) && s[0] != '"' {
      var k := SymLen(s);
      if k > 0 {
        assert s[..k][0] == s[0] && "@"[0] == '@';
      }
    }
  }

  lemma AtStart(s: string)
    requires NoTest(Lex(s))
    ensures Stranger(Lex(['@'] + s))
  {
    LexMark('@', s);
  }

  lemma {:induction false} LinesEffect(t: string, k: string)
    requires t != "" && t[|t| - 1] == '.' && Titled(t, false) && NoTest(Lex(k))
    ensures LinesSafe(t) ==> Lex(t + ("\n" + k)) == Lex(k)
    ensures !LinesSafe(t) ==> Stranger(Lex(t + ("\n" + k)))
    decreases |t|
  {
    var s := t + ("\n" + k);
    assert TitledAt(t, 0, false);
    if IsWhite(t[0]) {
      assert s == [t[0]] + (t[1..] + ("\n" + k));
      LexWhite(t[0], t[1..] + ("\n" + k));
      assert t[1..][|t| - 2] == '.';
      TitledEnd(t, 1);
      LinesEffect(t[1..], k);
    } else if |t| > 1 && t[0] == '/' && t[1] == '/' {
      assert s == "//" + (t[2..] + ("\n" + k));
      TitledEnd(t, 2);
      assert t[2..][|t| - 3] == '.';
      CommentEffect(t[2..], k);
    } else if t[0] == '@' {
      assert s == ['@'] + (t[1..] + ("\n" + k));
      assert t[1..][|t| - 2] == '.';
      TitledEnd(t, 1);
      LinesEffect(t[1..], k);
      AtStart(t[1..] + ("\n" + k));
    } else {
      assert s[0] == t[0];
      assert |t| > 1 ==> s[1] == t[1];
      if IsLetter(s[0]) || s[0] == '_' {
        WordStart(s);
      } else {
        MarkStart(s);
      }
    }
  }

  /** A first line in front of the text changes nothing. */
  lemma PrefixedComment(p: string, t: string)
    requires '\n' !in p
    ensures LineLen(p + t) == |p| + LineLen(t)
    ensures CommentSafe(p + t) <==> CommentSafe(t)
  {
    var s := p + t;
    forall i | 0 <= i < |p| + LineLen(t) ensures s[i] != '\n' {
      assert i < |p| ==> s[i] == p[i] && p[i] in p;
      assert i >= |p| ==> s[i] == t[i - |p|];
    }
    assert LineLen(t) < |t| ==> s[|p| + LineLen(t)] == '\n';
    if LineLen(t) < |t| {
      assert s[|p| + LineLen(t) + 1..] == t[LineLen(t) + 1..];
    }
  }

  lemma TitleCommentEffect(p: string, t: string, k: string)
    requires '\n' !in p && t != "" && t[|t| - 1] == '.' && Titled(t, false) && NoTest(Lex(k))
    ensures CommentSafe(t) ==> Lex("//" + ((p + t) + ("\n" + k))) == Lex(k)
    ensures !CommentSafe(t) ==> Stranger(Lex("//" + ((p + t) + ("\n" + k))))
  {
    PrefixedComment(p, t);
    var s := p + t;
    assert s[|s| - 1] == t[|t| - 1];
    forall i | LineLen(s) < i < |s| ensures TitledAt(s, i, false) {
      assert s[i] == t[i - |p|] && s[i - 1] == t[i - |p| - 1] && TitledAt(t, i - |p|, false);
    }
    CommentEffect(s, k);
  }

  // ----- string literals -----

  /** A literal ends at its own closing quote exactly when its inside is safe. */
  lemma {:induction false} StringEnds(s: string, k: string)
    ensures StringLen(s + (['"'] + k)) == |s| + 1 <==> QuoteSafe(s)
    decreases |s|
  {
    var t := s + (['"'] + k);
    if s == "" {
      assert t[0] == '"';
    } else if s[0] == '"' {
    } else if s[0] == '\\' {
      if |s| > 1 {
        assert t[2..] == s[2..] + (['"'] + k);
        StringEnds(s[2..], k);
      } else {
        assert t[2..] == k;
        LiteralLength(k);
      }
    } else {
      assert t[1..] == s[1..] + (['"'] + k);
      StringEnds(s[1..], k);
    }
  }

  /** What follows the first quote that no backslash hides, if there is one. */
  function AfterQuote(s: string): Option<string> {
    if s == "" then None
    else if s[0] == '"' then Some(s[1..])
    else if s[0] == '\\' then (if |s| > 1 then AfterQuote(s[2..]) else None)
    else AfterQuote(s[1..])
  }

  /** A literal ends at the first loose quote of its inside. */
  lemma {:induction false} LooseQuoteEnds(s: string, k: string)
    requires AfterQuote(s).Some?
    ensures |AfterQuote(s).value| < |s| && AfterQuote(s).value == s[|s| - |AfterQuote(s).value|..]
    ensures StringLen(s + k) == |s| - |AfterQuote(s).value|
    decreases |s|
  {
    if s[0] == '"' {
    } else if s[0] == '\\' {
      assert (s + k)[2..] == s[2..] + k;
      LooseQuoteEnds(s[2..], k);
    } else {
      assert (s + k)[1..] == s[1..] + k;
      LooseQuoteEnds(s[1..], k);
    }
  }

  lemma {:induction false} NoQuoteNoEnd(k: string)
    requires '"' !in k
    ensures StringLen(k) > |k|
    decreases |k|
  {
    if k != "" {
      if k[0] == '\\' && |k| > 1 {
        assert forall c :: c in k[2..] ==> c in k;
        NoQuoteNoEnd(k[2..]);
      } else if k[0] != '\\' {
        assert forall c :: c in k[1..] ==> c in k;
        NoQuoteNoEnd(k[1..]);
      }
    }
  }

  /** An inside without a loose quote that is unsafe all the same hides the closing quote. */
  lemma {:induction false} HiddenQuote(s: string, k: string)
    requires AfterQuote(s).None? && !QuoteSafe(s) && '"' !in k
    ensures StringLen(s + (['"'] + k)) > |s| + 1 + |k|
    decreases |s|
  {
    var t := s + (['"'] + k);
    if s[0] == '\\' {
      if |s| > 1 {
        assert t[2..] == s[2..] + (['"'] + k);
        HiddenQuote(s[2..], k);
      } else {
        assert t[2..] == k;
        NoQuoteNoEnd(k);
      }
    } else {
      assert t[1..] == s[1..] + (['"'] + k);
      HiddenQuote(s[1..], k);
    }
  }

  lemma {:induction false} PlainBefore(p: string, s: string)
    requires forall c :: c in p ==> c != '"' && c != '\\'
    ensures AfterQuote(p + s) == AfterQuote(s)
  {
    if p == "" {
      assert p + s == s;
    } else {
      assert p[0] in p && forall c :: c in p[1..] ==> c in p;
      assert (p + s)[0] == p[0] && (p + s)[1..] == p[1..] + s;
      PlainBefore(p[1..], s);
    }
  }

  lemma TagQuote(n: nat, name: string)
    ensures AfterQuote(TestTag(n, name)) == AfterQuote(name)
  {
    PlainBefore(" ", name);
    PlainBefore(Padded(n), " " + name);
    PlainBefore("rosetta ", Padded(n) + (" " + name));
    Assoc("rosetta ", Padded(n), " ");
    Assoc(Padded(n), " ", name);
    Assoc("rosetta ", Padded(n) + " ", name);
  }

  lemma LiteralLength(k: string)
    ensures StringLen(k) >= 1
  {
  }

  lemma UnsafeLiteral(s: string, k: string)
    requires !QuoteSafe(s)
    ensures var ts := Lex(("\"" + (s + "\"")) + k); ts == [] || ts[0] != Str("\"" + (s + "\""))
  {
    var t := ("\"" + (s + "\"")) + k;
    assert t[0] == '"' && t[1..] == s + (['"'] + k);
    StringEnds(s, k);
    var n := 1 + StringLen(t[1..]);
    if n <= |t| {
      assert |t[..n]| == n;
    }
  }

  lemma {:induction false} PlainPrefix(p: string, s: string)
    requires forall c :: c in p ==> c != '"' && c != '\\'
    ensures QuoteSafe(p + s) <==> QuoteSafe(s)
  {
    if p == "" {
      assert p + s == s;
    } else {
      assert p[0] in p && forall c :: c in p[1..] ==> c in p;
      assert (p + s)[0] == p[0] && (p + s)[1..] == p[1..] + s;
      PlainPrefix(p[1..], s);
    }
  }

  lemma TagIsSafe(n: nat, name: string)
    ensures QuoteSafe(TestTag(n, name)) <==> QuoteSafe(name)
  {
    PlainPrefix(" ", name);
    PlainPrefix(Padded(n), " " + name);
    PlainPrefix("rosetta ", Padded(n) + (" " + name));
    assert TestTag(n, name) == "rosetta " + (Padded(n) + (" " + name));
  }

  // ----- tokens before a rest -----

  lemma {:induction false} ExprTokensRest(e: Expr, ts: seq<Token>)
    ensures ExprTokens(e, ts) == ExprTokens(e, []) + ts
    decreases e, 1
  {
    match e
    case Num(_) =>
    case Var(_) =>
    case Call(f, args) =>
      ArgTokensRest(args, [Sym(")")] + ts);
      ArgTokensRest(args, [Sym(")")] + []);
      assert [Sym(")")] + ts == ([Sym(")")] + []) + ts;
    case Bin(op, l, r) =>
      ExprTokensRest(r, ts);
      ExprTokensRest(l, [Sym(op.Text())] + ExprTokens(r, ts));
      ExprTokensRest(l, [Sym(op.Text())] + ExprTokens(r, []));
    case Group(i) =>
      ExprTokensRest(i, [Sym(")")] + ts);
      ExprTokensRest(i, [Sym(")")] + []);
  }

  lemma {:induction false} ArgTokensRest(args: seq<Expr>, ts: seq<Token>)
    ensures ArgTokens(args, ts) == ArgTokens(args, []) + ts
    decreases args, 0
  {
    if |args| == 1 {
      ExprTokensRest(args[0], ts);
    } else if args != [] {
      ArgTokensRest(args[1..], ts);
      ExprTokensRest(args[0], [Sym(",")] + ArgTokens(args[1..], ts));
      ExprTokensRest(args[0], [Sym(",")] + ArgTokens(args[1..], []));
    }
  }

  lemma EndedRest(e: Expr, ts: seq<Token>)
    ensures ExprTokens(e, [Sym(";")] + ts) == ExprTokens(e, [Sym(";")] + []) + ts
  {
    ExprTokensRest(e, [Sym(";")] + ts);
    ExprTokensRest(e, [Sym(";")] + []);
  }

  lemma {:induction false} StmtTokensRest(s: Stmt, ts: seq<Token>)
    ensures StmtTokens(s, ts) == StmtTokens(s, []) + ts
    decreases s, 1
  {
    match s
    case Let(_, e) => EndedRest(e, ts);
    case Assign(_, e) => EndedRest(e, ts);
    case Return(e) => EndedRest(e, ts);
    case Do(e) => EndedRest(e, ts);
    case For(x, a, b, body) =>
      ClosedBlockRest(body, [], ts);
      ForTokensRest(x, a, b, body, ts);
    case If(c, t, e, hasElse) =>
      var rest := if hasElse then ElseTokens(e, [Sym(";")] + []) else [Sym(";")] + [];
      if hasElse {
        ElseTokensRest(e, [Sym(";")] + ts);
        ElseTokensRest(e, [Sym(";")] + []);
      }
      ClosedBlockRest(t, rest, ts);
      IfTokensRest(c, t, e, hasElse, ts);
  }

  lemma ForTokensRest(x: string, a: Expr, b: Expr, body: seq<Stmt>, ts: seq<Token>)
    requires BlockTokens(body, [Sym("}")] + ([] + ts)) == BlockTokens(body, [Sym("}")] + []) + ts
    ensures StmtTokens(For(x, a, b, body), ts) == StmtTokens(For(x, a, b, body), []) + ts
  {
    assert [] + ts == ts;
    var inner := BlockTokens(body, [Sym("}")] + []);
    LoopTokensRest(a, b, inner, ts);
    HeadRest(Word("for"), Word(x), Word("in"), ExprTokens(a, [Sym("..")] + ExprTokens(b, [Sym("{")] + inner)), ts);
  }

  lemma IfTokensRest(c: Expr, t: seq<Stmt>, e: seq<Stmt>, hasElse: bool, ts: seq<Token>)
    requires hasElse ==> ElseTokens(e, [Sym(";")] + ts) == ElseTokens(e, []) + ([Sym(";")] + ts)
    requires hasElse ==> ElseTokens(e, [Sym(";")] + []) == ElseTokens(e, []) + ([Sym(";")] + [])
    requires var rest := if hasElse then ElseTokens(e, [Sym(";")] + []) else [Sym(";")] + [];
      BlockTokens(t, [Sym("}")] + (rest + ts)) == BlockTokens(t, [Sym("}")] + rest) + ts
    ensures StmtTokens(If(c, t, e, hasElse), ts) == StmtTokens(If(c, t, e, hasElse), []) + ts
  {
    var rest := if hasElse then ElseTokens(e, [Sym(";")] + []) else [Sym(";")] + [];
    Assoc([Sym(";")], [], ts);
    assert [] + ts == ts;
    if hasElse {
      Assoc(ElseTokens(e, []), [Sym(";")] + [], ts);
    }
    CondTokensRest(c, BlockTokens(t, [Sym("}")] + rest), ts);
  }

  lemma {:induction false} ClosedBlockRest(body: seq<Stmt>, rest: seq<Token>, ts: seq<Token>)
    ensures BlockTokens(body, [Sym("}")] + (rest + ts)) == BlockTokens(body, [Sym("}")] + rest) + ts
    decreases body, 1
  {
    BlockTokensRest(body, [Sym("}")] + (rest + ts));
    BlockTokensRest(body, [Sym("}")] + rest);
    Assoc([Sym("}")], rest, ts);
    Assoc(BlockTokens(body, []), [Sym("}")] + rest, ts);
  }

  lemma HeadRest(a: Token, b: Token, c: Token, inner: seq<Token>, ts: seq<Token>)
    ensures ([a] + ([b] + ([c] + inner))) + ts == [a] + ([b] + ([c] + (inner + ts)))
  {
    Assoc([a], [b] + ([c] + inner), ts);
    Assoc([b], [c] + inner, ts);
    Assoc([c], inner, ts);
  }

  lemma CondTokensRest(c: Expr, block: seq<Token>, ts: seq<Token>)
    ensures [Word("if")] + ExprTokens(c, [Sym("{")] + (block + ts)) == [Word("if")] + ExprTokens(c, [Sym("{")] + block) + ts
  {
    ExprTokensRest(c, [Sym("{")] + (block + ts));
    ExprTokensRest(c, [Sym("{")] + block);
  }

  lemma LoopTokensRest(a: Expr, b: Expr, inner: seq<Token>, ts: seq<Token>)
    ensures ExprTokens(a, [Sym("..")] + ExprTokens(b, [Sym("{")] + (inner + ts)))
         == ExprTokens(a, [Sym("..")] + ExprTokens(b, [Sym("{")] + inner)) + ts
  {
    ExprTokensRest(b, [Sym("{")] + (inner + ts));
    ExprTokensRest(b, [Sym("{")] + inner);
    var end := ExprTokens(b, [Sym("{")] + inner);
    assert ExprTokens(b, [Sym("{")] + (inner + ts)) == end + ts;
    ExprTokensRest(a, [Sym("..")] + (end + ts));
    ExprTokensRest(a, [Sym("..")] + end);
  }

  lemma {:induction false} ElseTokensRest(e: seq<Stmt>, ts: seq<Token>)
    ensures ElseTokens(e, ts) == ElseTokens(e, []) + ts
    decreases e, 1
  {
    BlockTokensRest(e, [Sym("}")] + ts);
    BlockTokensRest(e, [Sym("}")] + []);
  }

  lemma {:induction false} BlockTokensRest(ss: seq<Stmt>, ts: seq<Token>)
    ensures BlockTokens(ss, ts) == BlockTokens(ss, []) + ts
    decreases ss, 0
  {
    if ss != [] {
      BlockTokensRest(ss[1..], ts);
      StmtTokensRest(ss[0], BlockTokens(ss[1..], ts));
      StmtTokensRest(ss[0], BlockTokens(ss[1..], []));
    }
  }

  lemma {:induction false} ParamTokensRest(params: seq<string>, ts: seq<Token>)
    ensures ParamTokens(params, ts) == ParamTokens(params, []) + ts
  {
    if params != [] {
      if |params| > 1 {
        ParamTokensRest(params[1..], ts);
      }
      var tail := if |params| == 1 then ts else [Sym(",")] + ParamTokens(params[1..], ts);
      var tail' := if |params| == 1 then [] else [Sym(",")] + ParamTokens(params[1..], []);
      assert tail == tail' + ts;
    }
  }

  lemma FnTokensRest(f: string, params: seq<string>, inner: seq<Token>, ts: seq<Token>)
    ensures [Word("fn")] + ([Word(f)] + ([Sym("(")] + ParamTokens(params, [Sym(")")] + ([Sym("->")] + ([Word("int")] + ([Sym("{")] + (inner + ts)))))))
         == [Word("fn")] + ([Word(f)] + ([Sym("(")] + ParamTokens(params, [Sym(")")] + ([Sym("->")] + ([Word("int")] + ([Sym("{")] + inner)))))) + ts
  {
    var typed := [Sym("->")] + ([Word("int")] + ([Sym("{")] + inner));
    assert [Sym("->")] + ([Word("int")] + ([Sym("{")] + (inner + ts))) == typed + ts;
    ParamTokensRest(params, [Sym(")")] + (typed + ts));
    ParamTokensRest(params, [Sym(")")] + typed);
    var list := ParamTokens(params, [Sym(")")] + typed);
    assert ParamTokens(params, [Sym(")")] + (typed + ts)) == list + ts;
    assert [Word("fn")] + ([Word(f)] + ([Sym("(")] + (list + ts))) == [Word("fn")] + ([Word(f)] + ([Sym("(")] + list)) + ts;
  }

  lemma TestTokensRest(lit: string, inner: seq<Token>, ts: seq<Token>)
    ensures [Sym("@")] + ([Word("test")] + ([Str(lit)] + ([Sym("(")] + ([Sym(")")] + ([Sym("{")] + (inner + ts))))))
         == [Sym("@")] + ([Word("test")] + ([Str(lit)] + ([Sym("(")] + ([Sym(")")] + ([Sym("{")] + inner))))) + ts
  {
  }

  lemma DeclTokensRest(d: Decl, ts: seq<Token>)
    ensures DeclTokens(d, ts) == DeclTokens(d, []) + ts
  {
    var end, end' := EndTokens(d.closed, ts), EndTokens(d.closed, []);
    BlockTokensRest(d.body, end);
    BlockTokensRest(d.body, end');
    assert end == end' + ts;
    var inner' := BlockTokens(d.body, end');
    assert BlockTokens(d.body, end) == inner' + ts;
    match d
    case Fn(f, params, _, _) => FnTokensRest(f, params, inner', ts);
    case Test(tag, _, _) => TestTokensRest("\"" + (tag + "\""), inner', ts);
  }

  lemma {:induction false} ProgramTokensRest(ds: seq<Decl>, ts: seq<Token>)
    ensures ProgramTokens(ds, ts) == ProgramTokens(ds, []) + ts
  {
    if ds != [] {
      ProgramTokensRest(ds[1..], ts);
      DeclTokensRest(ds[0], ProgramTokens(ds[1..], ts));
      DeclTokensRest(ds[0], ProgramTokens(ds[1..], []));
    }
  }

  lemma {:induction false} ProgramTokensAppend(a: seq<Decl>, b: seq<Decl>, ts: seq<Token>)
    ensures ProgramTokens(a + b, ts) == ProgramTokens(a, ProgramTokens(b, ts))
  {
    if a == [] {
      assert a + b == b;
    } else {
      assert (a + b)[1..] == a[1..] + b;
      ProgramTokensAppend(a[1..], b, ts);
    }
  }
}
