/** The tokenizer of the SLA compiler (src/lexer.zig), on the remaining text. */
module SlaLexer {
  import opened Decimal
  import opened SlaSyntax

  predicate IsWhite(c: char) {
    c == ' ' || c == '\t' || c == '\n' || c == '\r'
  }

  function WordLen(s: string): (k: nat)
    ensures k <= |s|
    ensures forall i :: 0 <= i < k ==> IsWordChar(s[i])
    ensures k < |s| ==> !IsWordChar(s[k])
  {
    if s != "" && IsWordChar(s[0]) then 1 + WordLen(s[1..]) else 0
  }

  /** The rest of the line. */
  function LineLen(s: string): (k: nat)
    ensures k <= |s|
    ensures forall i :: 0 <= i < k ==> s[i] != '\n'
    ensures k < |s| ==> s[k] == '\n'
  {
    if s != "" && s[0] != '\n' then 1 + LineLen(s[1..]) else 0
  }

  /** Digits with single separators between them, and whether a fraction point was passed. */
  function NumberLen(s: string): (r: (nat, bool))
    ensures r.0 <= |s|
  {
    if s == "" then (0, false)
    else if s[0] == '.' && |s| > 1 && IsDigit(s[1]) then
      var (k, _) := NumberLen(s[1..]);
      (1 + k, true)
    else if IsDigit(s[0]) || (s[0] == '_' && |s| > 1 && IsDigit(s[1])) then
      var (k, fraction) := NumberLen(s[1..]);
      (1 + k, fraction)
    else (0, false)
  }

  /** The suffix of an integer literal. */
  function SuffixLen(s: string): (k: nat)
    ensures k <= |s|
  {
    if s != "" && (IsLetter(s[0]) || IsDigit(s[0])) then 1 + SuffixLen(s[1..]) else 0
  }

  /** The inside of a string literal, up to and with the closing quote; past the end when there is none. */
  function StringLen(s: string): (k: nat)
    decreases |s|
  {
    if s == "" then 1
    else if s[0] == '"' then 1
    else if s[0] == '\\' then 2 + StringLen(if |s| > 1 then s[2..] else "")
    else 1 + StringLen(s[1..])
  }

  /** How many characters a symbol takes, longest first; 0 when no symbol starts here. */
  function SymLen(s: string): (k: nat)
    requires s != ""
    ensures k <= |s|
  {
    if |s| > 2 && (s[..3] == "<=>" || (s[..3] == "??=" && (|s| == 3 || s[3] != '='))) then 3
    else if |s| > 1 && s[..2] == "?." then (if |s| > 2 && IsDigit(s[2]) then 1 else 2)
    else if |s| > 1 && s[..2] in {"??", "+=", "->", "-=", "*=", "/=", "%=", "=>", "==", "&=", "&&", "||", "|=",
                                  "!=", "..", "::", "<<", "<=", ">>", ">="} then 2
    else if s[0] in {'@', '?', '+', '-', '*', '/', '%', '=', '&', '^', '|', '!', '.', ',', ';', ':', '(', ')', '{', '}',
                     '[', ']', '<', '>'} then 1
    else 0
  }

  /** All tokens of a text; an invalid token ends the list. */
  function Lex(s: string): seq<Token>
    decreases |s|
  {
    if s == "" then []
    else if IsWhite(s[0]) then Lex(s[1..])
    else if s[0] == '/' && |s| > 1 && s[1] == '/' then Lex(s[LineLen(s)..])
    else if IsLetter(s[0]) || s[0] == '_' then
      [Word(s[..WordLen(s)])] + Lex(s[WordLen(s)..])
    else if IsDigit(s[0]) then
      if s[0] == '0' && |s| > 1 && (s[1] == 'x' || s[1] == 'X') then [Bad]
      else
        var (n, fraction) := NumberLen(s);
        var k := if fraction then n else n + SuffixLen(s[n..]);
        if fraction || k == 0 then [Bad] else [Int(s[..k])] + Lex(s[k..])
    else if s[0] == '"' then
      var k := 1 + StringLen(s[1..]);
      if k > |s| then [Bad] else [Str(s[..k])] + Lex(s[k..])
    else
      var k := SymLen(s);
      if k == 0 then [Bad] else [Sym(s[..k])] + Lex(s[k..])
  }

  // ----- one token at a time -----

  /** The text does not continue a word or a number. */
  predicate Stops(k: string) {
    k == "" || (!IsWordChar(k[0]) && (k[0] == '.' ==> |k| > 1 && k[1] == '.'))
  }

  lemma LexWhite(c: char, k: string)
    requires IsWhite(c)
    ensures Lex([c] + k) == Lex(k)
  {
    assert ([c] + k)[1..] == k;
  }

  lemma {:induction false} LexIndent(depth: nat, k: string)
    ensures Lex(Indent(depth) + k) == Lex(k)
  {
    if depth == 0 {
      assert Indent(depth) + k == k;
    } else {
      assert Indent(depth) + k == [' '] + (Indent(depth - 1) + k);
      LexWhite(' ', Indent(depth - 1) + k);
      LexIndent(depth - 1, k);
    }
  }

  lemma LexWord(w: string, k: string)
    requires IsWord(w) && (k == "" || !IsWordChar(k[0]))
    ensures Lex(w + k) == [Word(w)] + Lex(k)
  {
    var s := w + k;
    forall i | 0 <= i < |w| ensures IsWordChar(s[i]) {
      assert s[i] == w[i] && w[i] in w;
    }
    assert s[0] == w[0];
    assert k != "" ==> s[|w|] == k[0];
    assert WordLen(s) == |w|;
    assert s[..|w|] == w && s[|w|..] == k;
  }

  lemma {:induction false} NumberRun(d: string, k: string)
    requires AllDigits(d) && Stops(k)
    ensures NumberLen(d + k) == (|d|, false)
  {
    if d == "" {
      assert d + k == k;
    } else {
      assert forall c :: c in d[1..] ==> c in d;
      assert (d + k)[1..] == d[1..] + k && (d + k)[0] == d[0] && d[0] in d;
      NumberRun(d[1..], k);
    }
  }

  lemma LexNumber(n: nat, k: string)
    requires Stops(k)
    ensures Lex(Print(n) + k) == [Int(Print(n))] + Lex(k)
  {
    var d := Print(n);
    var s := d + k;
    NumberRun(d, k);
    assert s[0] == d[0] && d[0] in d;
    assert s[..|d|] == d && s[|d|..] == k;
    if d[0] == '0' {
      assert d == "0";
      assert |s| > 1 ==> s[1] == k[0];
    }
  }

  /** A text that starts like a symbol of `k` characters has that symbol as its next token. */
  lemma LexSym(s: string, k: nat)
    requires s != "" && !IsWhite(s[0]) && !IsLetter(s[0]) && s[0] != '_' && !IsDigit(s[0]) && s[0] != '"' && s[0] != '/'
    requires k == SymLen(s) && k > 0
    ensures Lex(s) == [Sym(s[..k])] + Lex(s[k..])
  {
  }

  lemma Opening(s: string)
    ensures |s| > 1 ==> s[..2] == [s[0], s[1]]
    ensures |s| > 2 ==> s[..3] == [s[0], s[1], s[2]]
  {
  }

  lemma MarkLen(s: string)
    requires s != "" && s[0] in {'@', ',', ';', '(', ')', '{', '}'}
    ensures SymLen(s) == 1
  {
    Opening(s);
  }

  /** A one-character symbol that no next character extends. */
  lemma LexMark(c: char, k: string)
    requires c in {'@', ',', ';', '(', ')', '{', '}'}
    ensures Lex([c] + k) == [Sym([c])] + Lex(k)
  {
    var s := [c] + k;
    assert s[..1] == [c] && s[1..] == k;
    MarkLen(s);
    LexSym(s, 1);
  }

  lemma SpacedLen(sym: string, s: string)
    requires sym in {"+", "-", "*", ">", "!=", "=", "->", ":"}
    requires |sym| < |s| && s[0] == sym[0] && s[|sym|] == ' ' && (|sym| == 2 ==> s[1] == sym[1])
    ensures SymLen(s) == |sym|
  {
    Opening(s);
  }

  /** A symbol in front of a space. */
  lemma LexSpaced(sym: string, k: string)
    requires sym in {"+", "-", "*", ">", "!=", "=", "->", ":"}
    ensures Lex(sym + (" " + k)) == [Sym(sym)] + Lex(k)
  {
    var s := sym + (" " + k);
    assert s[|sym|] == ' ' && s[|sym|..] == " " + k && s[..|sym|] == sym;
    SpacedLen(sym, s);
    LexSym(s, |sym|);
    LexWhite(' ', k);
  }

  /** The range symbol, in front of anything. */
  lemma LexRange(k: string)
    ensures Lex(".." + k) == [Sym("..")] + Lex(k)
  {
    var s := ".." + k;
    assert s[..2] == ".." && s[2..] == k;
    if |s| > 2 {
      assert s[..3] == ['.', '.', s[2]];
    }
  }

  lemma {:induction false} StringRun(s: string, k: string)
    requires QuoteSafe(s)
    ensures StringLen(s + (['"'] + k)) == |s| + 1
    decreases |s|
  {
    var t := s + (['"'] + k);
    if s == "" {
      assert t[0] == '"';
    } else if s[0] == '\\' {
      assert t[2..] == s[2..] + (['"'] + k);
      StringRun(s[2..], k);
    } else {
      assert t[1..] == s[1..] + (['"'] + k);
      StringRun(s[1..], k);
    }
  }

  lemma LexString(s: string, k: string)
    requires QuoteSafe(s)
    ensures Lex(("\"" + (s + "\"")) + k) == [Str("\"" + (s + "\""))] + Lex(k)
  {
    var lit := "\"" + (s + "\"");
    var t := lit + k;
    assert t[0] == '"' && t[1..] == s + (['"'] + k);
    StringRun(s, k);
    assert t[..|s| + 2] == lit && t[|s| + 2..] == k;
  }

  // ----- whole trees -----

  lemma OpStops(op: Op, k: string)
    ensures Lex(" " + (op.Text() + (" " + k))) == [Sym(op.Text())] + Lex(k)
  {
    LexWhite(' ', op.Text() + (" " + k));
    LexSpaced(op.Text(), k);
  }

  /** The layout of an expression lexes to its tokens. */
  lemma {:induction false} LexExpr(e: Expr, k: string)
    requires WellFormed(e) && Stops(k)
    ensures Lex(PrintExpr(e, k)) == ExprTokens(e, Lex(k))
    decreases e, 1
  {
    match e
    case Num(n) => LexNumber(n, k);
    case Var(x) => LexWord(x, k);
    case Call(f, args) =>
      var tail := PrintArgs(args, ")" + k);
      LexWord(f, "(" + tail);
      LexMark('(', tail);
      LexArgs(args, ")" + k);
      LexMark(')', k);
    case Bin(op, l, r) =>
      LexExpr(r, k);
      OpStops(op, PrintExpr(r, k));
      LexExpr(l, " " + (op.Text() + (" " + PrintExpr(r, k))));
    case Group(i) =>
      LexMark('(', PrintExpr(i, ")" + k));
      LexExpr(i, ")" + k);
      LexMark(')', k);
  }

  lemma {:induction false} LexArgs(args: seq<Expr>, k: string)
    requires (forall a :: a in args ==> WellFormed(a)) && Stops(k)
    ensures Lex(PrintArgs(args, k)) == ArgTokens(args, Lex(k))
    decreases args, 0
  {
    if |args| == 1 {
      LexExpr(args[0], k);
    } else if args != [] {
      var tail := PrintArgs(args[1..], k);
      LexArgs(args[1..], k);
      LexExpr(args[0], "," + (" " + tail));
      LexMark(',', " " + tail);
      LexWhite(' ', tail);
    }
  }

  /** `;` and the end of the line. */
  lemma LexSemicolon(k: string)
    ensures Lex(";" + ("\n" + k)) == [Sym(";")] + Lex(k)
    ensures Stops(";" + ("\n" + k))
  {
    LexMark(';', "\n" + k);
    LexWhite('\n', k);
  }

  /** ` {` and the end of the line. */
  lemma LexOpen(k: string)
    ensures Lex(" " + ("{" + ("\n" + k))) == [Sym("{")] + Lex(k)
    ensures Stops(" " + ("{" + ("\n" + k)))
  {
    LexWhite(' ', "{" + ("\n" + k));
    LexMark('{', "\n" + k);
    LexWhite('\n', k);
  }

  lemma LexSpacedWord(w: string, k: string)
    requires IsWord(w)
    ensures Lex(w + (" " + k)) == [Word(w)] + Lex(k)
  {
    LexWord(w, " " + k);
    LexWhite(' ', k);
  }

  lemma LexAssign(x: string, e: Expr, k: string)
    requires IsName(x) && WellFormed(e)
    ensures Lex(x + (" " + ("=" + (" " + PrintExpr(e, ";" + ("\n" + k)))))) == [Word(x)] + ([Sym("=")] + ExprTokens(e, [Sym(";")] + Lex(k)))
  {
    LexSpacedWord(x, "=" + (" " + PrintExpr(e, ";" + ("\n" + k))));
    LexSpaced("=", PrintExpr(e, ";" + ("\n" + k)));
    LexSemicolon(k);
    LexExpr(e, ";" + ("\n" + k));
  }

  lemma LexLoopHead(x: string, a: Expr, b: Expr, k: string)
    requires IsName(x) && WellFormed(a) && WellFormed(b)
    ensures Lex("for" + (" " + (x + (" " + ("in" + (" " + PrintExpr(a, ".." + PrintExpr(b, " " + ("{" + ("\n" + k))))))))))
         == [Word("for")] + ([Word(x)] + ([Word("in")] + ExprTokens(a, [Sym("..")] + ExprTokens(b, [Sym("{")] + Lex(k)))))
  {
    var open := " " + ("{" + ("\n" + k));
    var end := PrintExpr(b, open);
    var start := PrintExpr(a, ".." + end);
    LexSpacedWord("for", x + (" " + ("in" + (" " + start))));
    LexSpacedWord(x, "in" + (" " + start));
    LexSpacedWord("in", start);
    LexOpen(k);
    LexExpr(b, open);
    LexRange(end);
    assert Stops(".." + end);
    LexExpr(a, ".." + end);
  }

  lemma LexClose(depth: nat, k: string)
    ensures Lex(Indent(depth) + ("}" + k)) == [Sym("}")] + Lex(k)
  {
    LexIndent(depth, "}" + k);
    LexMark('}', k);
  }

  lemma {:induction false} LexStmt(s: Stmt, depth: nat, k: string)
    requires WellFormedStmt(s)
    ensures Lex(PrintStmt(s, depth, k)) == StmtTokens(s, Lex(k))
    decreases s, 1
  {
    match s
    case Let(x, e) =>
      var tail := x + (" " + ("=" + (" " + PrintExpr(e, ";" + ("\n" + k)))));
      LexIndent(depth, "let" + (" " + tail));
      LexSpacedWord("let", tail);
      LexAssign(x, e, k);
    case Assign(x, e) =>
      LexIndent(depth, x + (" " + ("=" + (" " + PrintExpr(e, ";" + ("\n" + k))))));
      LexAssign(x, e, k);
    case Return(e) =>
      LexIndent(depth, "return" + (" " + PrintExpr(e, ";" + ("\n" + k))));
      LexSpacedWord("return", PrintExpr(e, ";" + ("\n" + k)));
      LexSemicolon(k);
      LexExpr(e, ";" + ("\n" + k));
    case Do(e) =>
      LexIndent(depth, PrintExpr(e, ";" + ("\n" + k)));
      LexSemicolon(k);
      LexExpr(e, ";" + ("\n" + k));
    case For(x, a, b, body) =>
      var close := Indent(depth) + ("}" + ("\n" + k));
      var inner := PrintBlock(body, depth + 4, close);
      LexIndent(depth, "for" + (" " + (x + (" " + ("in" + (" " + PrintExpr(a, ".." + PrintExpr(b, " " + ("{" + ("\n" + inner))))))))));
      LexLoopHead(x, a, b, inner);
      LexBlock(body, depth + 4, close);
      LexClose(depth, "\n" + k);
      LexWhite('\n', k);
    case If(c, t, e, hasElse) =>
      var after := ";" + ("\n" + k);
      var rest := if hasElse then PrintElse(e, depth, after) else after;
      var close := Indent(depth) + ("}" + rest);
      var inner := PrintBlock(t, depth + 4, close);
      var open := " " + ("{" + ("\n" + inner));
      LexIndent(depth, "if" + (" " + PrintExpr(c, open)));
      LexSpacedWord("if", PrintExpr(c, open));
      LexOpen(inner);
      LexExpr(c, open);
      LexBlock(t, depth + 4, close);
      LexClose(depth, rest);
      LexSemicolon(k);
      if hasElse {
        LexElse(e, depth, after);
      }
  }

  lemma {:induction false} LexElse(e: seq<Stmt>, depth: nat, k: string)
    requires WellFormedBlock(e)
    ensures Lex(PrintElse(e, depth, k)) == ElseTokens(e, Lex(k))
    decreases e, 1
  {
    var close := Indent(depth) + ("}" + k);
    var inner := PrintBlock(e, depth + 4, close);
    LexWhite(' ', "else" + (" " + ("{" + ("\n" + inner))));
    LexWord("else", " " + ("{" + ("\n" + inner)));
    LexOpen(inner);
    LexBlock(e, depth + 4, close);
    LexClose(depth, k);
  }

  lemma {:induction false} LexBlock(ss: seq<Stmt>, depth: nat, k: string)
    requires WellFormedBlock(ss)
    ensures Lex(PrintBlock(ss, depth, k)) == BlockTokens(ss, Lex(k))
    decreases ss, 0
  {
    if ss != [] {
      LexBlock(ss[1..], depth, k);
      LexStmt(ss[0], depth, PrintBlock(ss[1..], depth, k));
    }
  }

  lemma {:induction false} LexParams(params: seq<string>, k: string)
    requires (forall p :: p in params ==> IsName(p)) && Stops(k)
    ensures Lex(PrintParams(params, k)) == ParamTokens(params, Lex(k))
  {
    if params != [] {
      var tail := if |params| == 1 then k else "," + (" " + PrintParams(params[1..], k));
      assert params[0] in params;
      LexWord(params[0], ":" + (" " + ("int" + tail)));
      LexSpaced(":", "int" + tail);
      LexWord("int", tail);
      if |params| > 1 {
        LexMark(',', " " + PrintParams(params[1..], k));
        LexWhite(' ', PrintParams(params[1..], k));
        LexParams(params[1..], k);
      }
    }
  }

  lemma LexEnd(closed: bool, k: string)
    ensures Lex(PrintEnd(closed, k)) == EndTokens(closed, Lex(k))
  {
    LexMark('}', if closed then ";" + ("\n" + k) else "\n" + k);
    LexSemicolon(k);
    LexWhite('\n', k);
  }

  lemma LexFnHead(f: string, params: seq<string>, k: string)
    requires IsName(f) && forall p :: p in params ==> IsName(p)
    ensures Lex("fn" + (" " + (f + ("(" + PrintParams(params, ")" + (" " + ("->" + (" " + ("int" + (" " + ("{" + ("\n" + k)))))))))))) ==
      [Word("fn")] + ([Word(f)] + ([Sym("(")] + ParamTokens(params, [Sym(")")] + ([Sym("->")] + ([Word("int")] + ([Sym("{")] + Lex(k)))))))
  {
    var open := " " + ("{" + ("\n" + k));
    var result := "->" + (" " + ("int" + open));
    var list := PrintParams(params, ")" + (" " + result));
    LexSpacedWord("fn", f + ("(" + list));
    LexWord(f, "(" + list);
    LexMark('(', list);
    LexParams(params, ")" + (" " + result));
    LexMark(')', " " + result);
    LexWhite(' ', result);
    LexSpaced("->", "int" + open);
    LexWord("int", open);
    LexOpen(k);
  }

  lemma LexTestHead(tag: string, k: string)
    requires QuoteSafe(tag)
    ensures Lex("@" + ("test" + (" " + (("\"" + (tag + "\"")) + ("(" + (")" + (" " + ("{" + ("\n" + k))))))))) ==
      [Sym("@")] + ([Word("test")] + ([Str("\"" + (tag + "\""))] + ([Sym("(")] + ([Sym(")")] + ([Sym("{")] + Lex(k))))))
  {
    var open := " " + ("{" + ("\n" + k));
    var marks := "(" + (")" + open);
    var lit := "\"" + (tag + "\"");
    LexMark('@', "test" + (" " + (lit + marks)));
    LexSpacedWord("test", lit + marks);
    LexString(tag, marks);
    LexMark('(', ")" + open);
    LexMark(')', open);
    LexOpen(k);
  }

  lemma LexDecl(d: Decl, k: string)
    requires WellFormedDecl(d)
    ensures Lex(PrintDecl(d, k)) == DeclTokens(d, Lex(k))
  {
    var inner := PrintBlock(d.body, 4, PrintEnd(d.closed, k));
    LexBlock(d.body, 4, PrintEnd(d.closed, k));
    LexEnd(d.closed, k);
    match d
    case Fn(f, params, _, _) => LexFnHead(f, params, inner);
    case Test(tag, _, _) => LexTestHead(tag, inner);
  }

  /** The layout of a program lexes to its tokens: no two of them run together, and none is split. */
  lemma {:induction false} LexProgram(ds: seq<Decl>, k: string)
    requires WellFormedProgram(ds)
    ensures Lex(PrintProgram(ds, k)) == ProgramTokens(ds, Lex(k))
  {
    if ds != [] {
      assert ds[0] in ds;
      var tail := if |ds| == 1 then k else "\n" + PrintProgram(ds[1..], k);
      LexDecl(ds[0], tail);
      if |ds| > 1 {
        LexProgram(ds[1..], k);
        LexWhite('\n', PrintProgram(ds[1..], k));
      }
    }
  }
}
