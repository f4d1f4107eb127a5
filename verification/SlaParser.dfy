/** The precedence-climbing parser of the SLA compiler (src/parser.zig) for the fragment that generated programs use.
    `max` is the largest integer a literal may denote; the compiler's is that of a signed 64-bit integer. */
module SlaParser {
  import opened Decimal
  import opened SlaSyntax

  datatype SyntaxError =
    | UnexpectedToken
    | InvalidCharacter // a literal beyond `max`
    | OutsideFragment  // a construct of the language that the fragment leaves out

  datatype Parsed<+T> = Done(value: T, rest: seq<Token>) | Error(error: SyntaxError) {
    predicate IsFailure() { Error? }
    function PropagateFailure<U>(): Parsed<U>
      requires Error?
    {
      Error(error)
    }
    function Extract(): (T, seq<Token>)
      requires Done?
    {
      (value, rest)
    }
  }

  const MAX_I64: nat := 0x7FFF_FFFF_FFFF_FFFF

  predicate At(ts: seq<Token>, token: Token) {
    ts != [] && ts[0] == token
  }

  function Expect(ts: seq<Token>, token: Token): (r: Parsed<Token>)
    ensures r.Done? ==> |r.rest| < |ts|
  {
    if At(ts, token) then Done(token, ts[1..]) else Error(UnexpectedToken)
  }

  function Identifier(ts: seq<Token>): (r: Parsed<string>)
    ensures r.Done? ==> |r.rest| < |ts|
  {
    if ts == [] || !ts[0].Word? || ts[0].text in KEYWORDS then Error(UnexpectedToken)
    else if ts[0].text in SPECIAL then Error(OutsideFragment)
    else Done(ts[0].text, ts[1..])
  }

  /** `getInfixPrecedence` */
  function Prec(ts: seq<Token>): nat {
    if ts == [] then 0
    else match ts[0]
      case Sym(s) =>
        if s in {"||", "|", "??", "?"} then 1
        else if s in {"&&", "^"} then 2
        else if s == "&" then 3
        else if s in {"==", "!=", "<=>"} then 4
        else if s in {"<", ">", "<=", ">="} then 5
        else if s in {"<<", ">>"} then 6
        else if s in {"+", "-"} then 7
        else if s in {"*", "/", "%"} then 8
        else if s in {".", "!", "(", "[", "?."} then 10
        else 0
      case Word(w) => if w == "as" then 9 else 0
      case _ => 0
  }

  function OpOf(token: Token): (op: seq<Op>) {
    if token == Sym("+") then [Add]
    else if token == Sym("-") then [Sub]
    else if token == Sym("*") then [Mul]
    else if token == Sym(">") then [Gt]
    else if token == Sym("!=") then [Ne]
    else []
  }

  function ParsePrefix(ts: seq<Token>, max: nat): (r: Parsed<Expr>)
    decreases |ts|, 0
    ensures r.Done? ==> |r.rest| < |ts|
  {
    if ts == [] then Error(UnexpectedToken)
    else match ts[0]
      case Int(text) =>
        if text == "" || !AllDigits(text) then Error(OutsideFragment)
        else if Value(text) > max then Error(InvalidCharacter)
        else Done(Num(Value(text)), ts[1..])
      case Word(_) =>
        var (x, rest) :- Identifier(ts);
        if At(rest, Sym("::")) then Error(OutsideFragment) else Done(Var(x), rest)
      case Sym(s) =>
        if s == "(" then
          var (e, rest) :- ParseExpr(ts[1..], 0, max);
          if At(rest, Sym(",")) then Error(OutsideFragment)
          else
            var (_, after) :- Expect(rest, Sym(")"));
            Done(e, after)
        else if s in {"&", "^", "*", "-", "!", "|", "||", "["} then Error(OutsideFragment)
        else Error(UnexpectedToken)
      case _ => Error(UnexpectedToken)
  }

  /** `parseExpr`: a prefix, then everything that binds tighter than `p`. */
  function ParseExpr(ts: seq<Token>, p: nat, max: nat): (r: Parsed<Expr>)
    decreases |ts|, 1
    ensures r.Done? ==> |r.rest| < |ts|
  {
    var (left, rest) :- ParsePrefix(ts, max);
    Climb(left, rest, p, max)
  }

  function Climb(left: Expr, ts: seq<Token>, p: nat, max: nat): (r: Parsed<Expr>)
    decreases |ts|, 1
    ensures r.Done? ==> |r.rest| <= |ts|
  {
    if Prec(ts) <= p then Done(left, ts)
    else if ts[0] == Sym("(") then
      if !left.Var? then Error(UnexpectedToken)
      else
        var (args, rest) :- ParseArgs(ts[1..], max);
        Climb(Call(left.name, args), rest, p, max)
    else
      var op := OpOf(ts[0]);
      if op == [] then Error(OutsideFragment)
      else
        var (right, rest) :- ParseExpr(ts[1..], Prec(ts), max);
        Climb(Bin(op[0], left, right), rest, p, max)
  }

  /** Arguments up to and with the closing parenthesis. */
  function ParseArgs(ts: seq<Token>, max: nat): (r: Parsed<seq<Expr>>)
    decreases |ts|, 2
    ensures r.Done? ==> |r.rest| < |ts|
  {
    if At(ts, Sym(")")) then Done([], ts[1..])
    else
      var (arg, rest) :- ParseExpr(ts, 0, max);
      if At(rest, Sym(",")) then
        var (args, after) :- ParseArgs(rest[1..], max);
        Done([arg] + args, after)
      else
        var (_, after) :- Expect(rest, Sym(")"));
        Done([arg], after)
  }

  function ParseBlock(ts: seq<Token>, max: nat): (r: Parsed<seq<Stmt>>)
    decreases |ts|, 0
    ensures r.Done? ==> |r.rest| < |ts|
  {
    var (_, rest) :- Expect(ts, Sym("{"));
    var (body, after) :- ParseStmts(rest, max);
    var (_, end) :- Expect(after, Sym("}"));
    Done(body, end)
  }

  function ParseStmts(ts: seq<Token>, max: nat): (r: Parsed<seq<Stmt>>)
    decreases |ts|, 2
    ensures r.Done? ==> |r.rest| <= |ts|
  {
    if ts == [] || ts[0] == Sym("}") then Done([], ts)
    else
      var (s, rest) :- ParseStmt(ts, max);
      var (ss, after) :- ParseStmts(rest, max);
      Done([s] + ss, after)
  }

  const OTHER_STATEMENTS: set<string> :=
    {"using", "const", "var", "while", "select", "defer", "break", "continue", "switch", "match", "unsafe", "await", "go"}

  function ParseStmt(ts: seq<Token>, max: nat): (r: Parsed<Stmt>)
    decreases |ts|, 1
    ensures r.Done? ==> |r.rest| < |ts|
  {
    if At(ts, Word("let")) then
      var (x, s1) :- Identifier(ts[1..]);
      if At(s1, Sym(":")) then Error(OutsideFragment)
      else
        var (_, s2) :- Expect(s1, Sym("="));
        var (e, s3) :- ParseExpr(s2, 0, max);
        var (_, rest) :- Expect(s3, Sym(";"));
        Done(Let(x, e), rest)
    else if At(ts, Word("return")) then
      if At(ts[1..], Sym(";")) then Error(OutsideFragment)
      else
        var (e, s1) :- ParseExpr(ts[1..], 0, max);
        var (_, rest) :- Expect(s1, Sym(";"));
        Done(Return(e), rest)
    else if At(ts, Word("for")) then
      var (x, s1) :- Identifier(ts[1..]);
      var (_, s2) :- Expect(s1, Word("in"));
      var (a, s3) :- ParseExpr(s2, 0, max);
      if !At(s3, Sym("..")) then Error(OutsideFragment)
      else
        var (b, s4) :- ParseExpr(s3[1..], 0, max);
        var (body, rest) :- ParseBlock(s4, max);
        Done(For(x, a, b, body), rest)
    else if At(ts, Word("if")) then
      ParseIf(ts[1..], max)
    else if At(ts, Sym("{")) || (ts != [] && ts[0].Word? && ts[0].text in OTHER_STATEMENTS) then
      Error(OutsideFragment)
    else
      ParseSimple(ts, max)
  }

  /** An expression, or an assignment to one. */
  function ParseSimple(ts: seq<Token>, max: nat): (r: Parsed<Stmt>)
    ensures r.Done? ==> |r.rest| < |ts|
  {
    var (e, s1) :- ParseExpr(ts, 0, max);
    if At(s1, Sym("=")) then
      var (value, s2) :- ParseExpr(s1[1..], 0, max);
      if !e.Var? || At(s2, Sym("=")) then Error(OutsideFragment)
      else
        var (_, rest) :- Expect(s2, Sym(";"));
        Done(Assign(e.name, value), rest)
    else
      EndStmt(Do(e), s1)
  }

  /** A semicolon, which the last statement of a block may leave out. */
  function EndStmt(s: Stmt, ts: seq<Token>): (r: Parsed<Stmt>)
    ensures r.Done? ==> |r.rest| <= |ts|
  {
    if At(ts, Sym(";")) then Done(s, ts[1..])
    else if At(ts, Sym("}")) then Done(s, ts)
    else Error(UnexpectedToken)
  }

  /** After `if`, where the conditional stands as a statement. */
  function ParseIf(ts: seq<Token>, max: nat): (r: Parsed<Stmt>)
    decreases |ts|, 2
    ensures r.Done? ==> |r.rest| < |ts|
  {
    if At(ts, Word("let")) then Error(OutsideFragment)
    else
      var (c, s1) :- ParseExpr(ts, 0, max);
      var (t, s2) :- ParseBlock(s1, max);
      if !At(s2, Word("else")) then
        if Prec(s2) > 0 then Error(OutsideFragment) else EndStmt(If(c, t, [], false), s2)
      else if At(s2[1..], Word("if")) then Error(OutsideFragment)
      else
        var (e, s3) :- ParseBlock(s2[1..], max);
        if Prec(s3) > 0 then Error(OutsideFragment) else EndStmt(If(c, t, e, true), s3)
  }

  function ParseParams(ts: seq<Token>): (r: Parsed<seq<string>>)
    ensures r.Done? ==> |r.rest| < |ts|
  {
    if At(ts, Sym(")")) then Done([], ts[1..])
    else
      var (x, s1) :- Identifier(ts);
      var (_, s2) :- Expect(s1, Sym(":"));
      if !At(s2, Word("int")) then Error(OutsideFragment)
      else if At(s2[1..], Sym(",")) then
        var (params, rest) :- ParseParams(s2[2..]);
        Done([x] + params, rest)
      else
        var (_, rest) :- Expect(s2[1..], Sym(")"));
        Done([x], rest)
  }

  function ParseDecl(ts: seq<Token>, max: nat): (r: Parsed<Decl>)
    ensures r.Done? ==> |r.rest| < |ts|
  {
    if At(ts, Word("fn")) then ParseFn(ts[1..], max)
    else if At(ts, Sym("@")) then
      if At(ts[1..], Word("test")) then ParseTest(ts[2..], max) else Error(OutsideFragment)
    else Error(OutsideFragment)
  }

  /** After `fn` */
  function ParseFn(ts: seq<Token>, max: nat): (r: Parsed<Decl>)
    ensures r.Done? ==> |r.rest| < |ts|
  {
    var (f, s1) :- Identifier(ts);
    var (_, s2) :- Expect(s1, Sym("("));
    var (params, s3) :- ParseParams(s2);
    var (_, s4) :- Expect(s3, Sym("->"));
    if !At(s4, Word("int")) then Error(OutsideFragment)
    else
      var (body, rest) :- ParseBlock(s4[1..], max);
      Done(Fn(f, params, body, false), rest)
  }

  /** After `@test` */
  function ParseTest(ts: seq<Token>, max: nat): (r: Parsed<Decl>)
    ensures r.Done? ==> |r.rest| < |ts|
  {
    if ts == [] || !ts[0].Str? || |ts[0].text| < 2 then Error(UnexpectedToken)
    else
      var tag := ts[0].text[1..|ts[0].text| - 1];
      var (_, s1) :- Expect(ts[1..], Sym("("));
      var (_, s2) :- Expect(s1, Sym(")"));
      var (body, rest) :- ParseBlock(s2, max);
      Done(Test(tag, body, false), rest)
  }

  /** `parseProgram`: declarations, each with an optional semicolon after it. */
  function ParseProgram(ts: seq<Token>, max: nat): Parsed<seq<Decl>>
    decreases |ts|
  {
    if ts == [] then Done([], ts)
    else
      var (d, rest) :- ParseDecl(ts, max);
      var (ds, after) :- ParseProgram(if At(rest, Sym(";")) then rest[1..] else rest, max);
      Done([d] + ds, after)
  }

  // ----- what a tree becomes when its text is parsed -----

  function Bare(e: Expr): Expr {
    match e
    case Num(_) => e
    case Var(_) => e
    case Call(f, args) => Call(f, BareAll(args))
    case Bin(op, l, r) => Bin(op, Bare(l), Bare(r))
    case Group(i) => Bare(i)
  }

  function BareAll(es: seq<Expr>): (bs: seq<Expr>)
    ensures |bs| == |es|
  {
    if es == [] then [] else [Bare(es[0])] + BareAll(es[1..])
  }

  function BareStmt(s: Stmt): Stmt {
    match s
    case Let(x, e) => Let(x, Bare(e))
    case Assign(x, e) => Assign(x, Bare(e))
    case For(x, a, b, body) => For(x, Bare(a), Bare(b), BareBlock(body))
    case If(c, t, e, hasElse) => If(Bare(c), BareBlock(t), BareBlock(e), hasElse)
    case Return(e) => Return(Bare(e))
    case Do(e) => Do(Bare(e))
  }

  function BareBlock(ss: seq<Stmt>): seq<Stmt> {
    if ss == [] then [] else [BareStmt(ss[0])] + BareBlock(ss[1..])
  }

  function BareDecl(d: Decl): Decl {
    match d
    case Fn(f, params, body, _) => Fn(f, params, BareBlock(body), false)
    case Test(tag, body, _) => Test(tag, BareBlock(body), false)
  }

  function BareProgram(ds: seq<Decl>): seq<Decl> {
    if ds == [] then [] else [BareDecl(ds[0])] + BareProgram(ds[1..])
  }

  /** Every literal is at most `max`. */
  predicate Fits(e: Expr, max: nat) {
    match e
    case Num(n) => n <= max
    case Var(_) => true
    case Call(_, args) => forall a :: a in args ==> Fits(a, max)
    case Bin(_, l, r) => Fits(l, max) && Fits(r, max)
    case Group(i) => Fits(i, max)
  }

  predicate FitsStmt(s: Stmt, max: nat) {
    match s
    case Let(_, e) => Fits(e, max)
    case Assign(_, e) => Fits(e, max)
    case For(_, a, b, body) => Fits(a, max) && Fits(b, max) && forall t :: t in body ==> FitsStmt(t, max)
    case If(c, t, e, _) => Fits(c, max) && (forall u :: u in t ==> FitsStmt(u, max)) && (forall u :: u in e ==> FitsStmt(u, max))
    case Return(e) => Fits(e, max)
    case Do(e) => Fits(e, max)
  }

  predicate FitsBlock(ss: seq<Stmt>, max: nat) {
    forall s :: s in ss ==> FitsStmt(s, max)
  }

  predicate FitsProgram(ds: seq<Decl>, max: nat) {
    forall d :: d in ds ==> FitsBlock(d.body, max)
  }

  /** The climb from a tree whose tokens come next. */
  function Onward(fits: bool, e: Expr, rest: seq<Token>, p: nat, max: nat): Parsed<Expr> {
    if fits then Climb(e, rest, p, max) else Error(InvalidCharacter)
  }

  lemma OpTokens(op: Op, ts: seq<Token>)
    ensures OpOf(Sym(op.Text())) == [op]
    ensures Prec([Sym(op.Text())] + ts) == op.Level()
    ensures Sym(op.Text()) != Sym("(")
  {
  }

  lemma ClimbStops(left: Expr, ts: seq<Token>, p: nat, max: nat)
    requires Prec(ts) <= p
    ensures Climb(left, ts, p, max) == Done(left, ts)
  {
  }

  lemma ParseNum(n: nat, rest: seq<Token>, p: nat, max: nat)
    ensures ParseExpr([Int(Print(n))] + rest, p, max) == Onward(n <= max, Num(n), rest, p, max)
  {
    ValuePrint(n);
    var ts := [Int(Print(n))] + rest;
    assert ts[0] == Int(Print(n)) && ts[1..] == rest;
  }

  /** The compiler's literals are those of a signed 64-bit integer: below 9223372036854775808. */
  lemma LiteralRange(n: nat, rest: seq<Token>)
    requires Prec(rest) == 0
    ensures ParseExpr([Int(Print(n))] + rest, 0, MAX_I64)
         == if n < 9223372036854775808 then Done(Num(n), rest) else Error(InvalidCharacter)
  {
    ParseNum(n, rest, 0, MAX_I64);
    ClimbStops(Num(n), rest, 0, MAX_I64);
  }

  lemma ParseVar(x: string, rest: seq<Token>, p: nat, max: nat)
    requires IsName(x) && !At(rest, Sym("::"))
    ensures ParseExpr([Word(x)] + rest, p, max) == Climb(Var(x), rest, p, max)
  {
    var ts := [Word(x)] + rest;
    assert ts[0] == Word(x) && ts[1..] == rest;
  }

  /** A call, given what its arguments parse to. */
  lemma ParseCall(f: string, inner: seq<Token>, args: Parsed<seq<Expr>>, p: nat, max: nat)
    requires IsName(f) && p < 10 && ParseArgs(inner, max) == args
    ensures args.Done? ==> ParseExpr([Word(f)] + ([Sym("(")] + inner), p, max) == Climb(Call(f, args.value), args.rest, p, max)
    ensures args.Error? ==> ParseExpr([Word(f)] + ([Sym("(")] + inner), p, max) == Error(args.error)
  {
    var after := [Sym("(")] + inner;
    assert after[0] == Sym("(") && after[1..] == inner;
    ParseVar(f, after, p, max);
  }

  lemma ClimbOp(left: Expr, op: Op, ts: seq<Token>, right: Parsed<Expr>, p: nat, max: nat)
    requires op.Level() > p && ParseExpr(ts, op.Level(), max) == right
    ensures right.Done? ==> Climb(left, [Sym(op.Text())] + ts, p, max) == Climb(Bin(op, left, right.value), right.rest, p, max)
    ensures right.Error? ==> Climb(left, [Sym(op.Text())] + ts, p, max) == right
  {
    var all := [Sym(op.Text())] + ts;
    assert all[0] == Sym(op.Text()) && all[1..] == ts;
    OpTokens(op, ts);
  }

  lemma ParseGroup(inner: seq<Token>, e: Parsed<Expr>, p: nat, max: nat)
    requires ParseExpr(inner, 0, max) == e
    requires e.Done? ==> At(e.rest, Sym(")"))
    ensures e.Done? ==> ParseExpr([Sym("(")] + inner, p, max) == Climb(e.value, e.rest[1..], p, max)
    ensures e.Error? ==> ParseExpr([Sym("(")] + inner, p, max) == e
  {
    var ts := [Sym("(")] + inner;
    assert ts[0] == Sym("(") && ts[1..] == inner;
  }

  /** Parsing the tokens of an expression gives the expression, with the associations its layout stands for, and then
      goes on with what follows; a literal beyond `max` is the only way to fail. */
  lemma {:induction false} ParseExprTokens(e: Expr, rest: seq<Token>, p: nat, max: nat)
    requires WellFormed(e) && ExprLevel(e) > p && Prec(rest) <= ExprLevel(e) && !At(rest, Sym("::"))
    ensures ParseExpr(ExprTokens(e, rest), p, max) == Onward(Fits(e, max), Bare(e), rest, p, max)
    decreases e, 1
  {
    match e
    case Num(n) => ParseNum(n, rest, p, max);
    case Var(x) => ParseVar(x, rest, p, max);
    case Call(f, args) =>
      ParseArgTokens(args, rest, max);
      ParseCall(f, ArgTokens(args, [Sym(")")] + rest), ParseArgs(ArgTokens(args, [Sym(")")] + rest), max), p, max);
    case Bin(op, l, r) =>
      var right := ExprTokens(r, rest);
      OpTokens(op, right);
      ParseExprTokens(l, [Sym(op.Text())] + right, p, max);
      ParseExprTokens(r, rest, op.Level(), max);
      ClimbStops(Bare(r), rest, op.Level(), max);
      ClimbOp(Bare(l), op, right, ParseExpr(right, op.Level(), max), p, max);
    case Group(i) =>
      var close := [Sym(")")] + rest;
      CloseTokens(rest);
      ParseExprTokens(i, close, 0, max);
      ClimbStops(Bare(i), close, 0, max);
      ParseGroup(ExprTokens(i, close), ParseExpr(ExprTokens(i, close), 0, max), p, max);
  }

  /** The binary operators of the language, from the loosest to the tightest. */
  const LEVELS: seq<set<string>> :=
    [{"||", "|", "??", "?"}, {"&&", "^"}, {"&"}, {"==", "!=", "<=>"}, {"<", ">", "<=", ">="}, {"<<", ">>"}, {"+", "-"}, {"*", "/", "%"}]

  /** The tokens that go on with an expression, and how tightly: the binary operators by level, then `as`, then what
      opens a postfix. */
  lemma InfixLevels(token: Token, rest: seq<Token>)
    ensures forall i :: 0 <= i < 8 ==> (Prec([token] + rest) == i + 1 <==> token.Sym? && token.text in LEVELS[i])
    ensures Prec([token] + rest) == 9 <==> token == Word("as")
    ensures Prec([token] + rest) == 10 <==> token.Sym? && token.text in {".", "!", "(", "[", "?."}
    ensures Prec([token] + rest) <= 10
  {
  }

  /** The sign of an operator in the text. */
  ghost predicate Sign(s: string, op: Op) {
    || (s == "*" && op == Mul) || (s == "+" && op == Add) || (s == "-" && op == Sub) || (s == ">" && op == Gt)
    || (s == "!=" && op == Ne)
  }

  /** Products bind tighter than sums and differences, these tighter than comparisons, and those tighter than inequality. */
  ghost predicate Tighter(a: Op, b: Op) {
    || (a == Mul && b != Mul) || (a in {Add, Sub} && b in {Gt, Ne}) || (a == Gt && b == Ne)
  }

  lemma ThreeNames(x: string, y: string, z: string, o1: Op, o2: Op)
    requires IsName(x) && IsName(y) && IsName(z)
    ensures Tighter(o2, o1) ==> WellFormed(Bin(o1, Var(x), Bin(o2, Var(y), Var(z))))
    ensures !Tighter(o2, o1) ==> WellFormed(Bin(o2, Bin(o1, Var(x), Var(y)), Var(z)))
  {
    assert WellFormed(Var(x)) && WellFormed(Var(y)) && WellFormed(Var(z));
    assert WellFormed(Bin(o2, Var(y), Var(z))) && WellFormed(Bin(o1, Var(x), Var(y)));
  }

  lemma BareNames(x: string, y: string, z: string, o1: Op, o2: Op, max: nat)
    ensures Bare(Bin(o1, Var(x), Bin(o2, Var(y), Var(z)))) == Bin(o1, Var(x), Bin(o2, Var(y), Var(z)))
    ensures Bare(Bin(o2, Bin(o1, Var(x), Var(y)), Var(z))) == Bin(o2, Bin(o1, Var(x), Var(y)), Var(z))
    ensures Fits(Bin(o1, Var(x), Bin(o2, Var(y), Var(z))), max) && Fits(Bin(o2, Bin(o1, Var(x), Var(y)), Var(z)), max)
  {
    assert Bare(Var(x)) == Var(x) && Bare(Var(y)) == Var(y) && Bare(Var(z)) == Var(z);
    assert Bare(Bin(o2, Var(y), Var(z))) == Bin(o2, Var(y), Var(z)) && Bare(Bin(o1, Var(x), Var(y))) == Bin(o1, Var(x), Var(y));
    assert Fits(Var(x), max) && Fits(Var(y), max) && Fits(Var(z), max);
    assert Fits(Bin(o2, Var(y), Var(z)), max) && Fits(Bin(o1, Var(x), Var(y)), max);
  }

  lemma NameTokens(x: string, y: string, z: string, o1: Op, o2: Op, rest: seq<Token>)
    ensures var ts := [Word(x)] + ([Sym(o1.Text())] + ([Word(y)] + ([Sym(o2.Text())] + ([Word(z)] + rest))));
      && ExprTokens(Bin(o1, Var(x), Bin(o2, Var(y), Var(z))), rest) == ts
      && ExprTokens(Bin(o2, Bin(o1, Var(x), Var(y)), Var(z)), rest) == ts
  {
    var zs := [Word(z)] + rest;
    assert ExprTokens(Var(z), rest) == zs;
    assert ExprTokens(Var(y), [Sym(o2.Text())] + zs) == [Word(y)] + ([Sym(o2.Text())] + zs);
    assert ExprTokens(Bin(o2, Var(y), Var(z)), rest) == [Word(y)] + ([Sym(o2.Text())] + zs);
    assert ExprTokens(Bin(o1, Var(x), Var(y)), [Sym(o2.Text())] + zs)
        == ExprTokens(Var(x), [Sym(o1.Text())] + ([Word(y)] + ([Sym(o2.Text())] + zs)));
  }

  /** Of two operators in a row the one on the right takes the middle operand exactly when it binds tighter. */
  lemma Precedence(x: string, y: string, z: string, s1: string, o1: Op, s2: string, o2: Op, rest: seq<Token>, max: nat)
    requires IsName(x) && IsName(y) && IsName(z) && Sign(s1, o1) && Sign(s2, o2)
    requires Prec(rest) == 0 && !At(rest, Sym("::"))
    ensures ParseExpr([Word(x)] + ([Sym(s1)] + ([Word(y)] + ([Sym(s2)] + ([Word(z)] + rest)))), 0, max)
         == Done(if Tighter(o2, o1) then Bin(o1, Var(x), Bin(o2, Var(y), Var(z))) else Bin(o2, Bin(o1, Var(x), Var(y)), Var(z)), rest)
  {
    var e := if Tighter(o2, o1) then Bin(o1, Var(x), Bin(o2, Var(y), Var(z))) else Bin(o2, Bin(o1, Var(x), Var(y)), Var(z));
    ThreeNames(x, y, z, o1, o2);
    BareNames(x, y, z, o1, o2, max);
    NameTokens(x, y, z, o1, o2, rest);
    assert s1 == o1.Text() && s2 == o2.Text();
    ParseExprTokens(e, rest, 0, max);
    ClimbStops(e, rest, 0, max);
  }

  lemma CloseTokens(rest: seq<Token>)
    ensures var close := [Sym(")")] + rest; Prec(close) == 0 && At(close, Sym(")")) && close[1..] == rest
    ensures var comma := [Sym(",")] + rest; Prec(comma) == 0 && At(comma, Sym(",")) && comma[1..] == rest
  {
  }

  /** The same for arguments. */
  lemma {:induction false} ParseArgTokens(args: seq<Expr>, rest: seq<Token>, max: nat)
    requires forall a :: a in args ==> WellFormed(a)
    ensures ParseArgs(ArgTokens(args, [Sym(")")] + rest), max)
         == if forall a :: a in args ==> Fits(a, max) then Done(BareAll(args), rest) else Error(InvalidCharacter)
    decreases args, 0
  {
    var close := [Sym(")")] + rest;
    CloseTokens(rest);
    if |args| == 1 {
      FirstToken(args[0], close);
      ParseExprTokens(args[0], close, 0, max);
      ClimbStops(Bare(args[0]), close, 0, max);
      assert args == [args[0]] && args[1..] == [];
      assert BareAll(args) == [Bare(args[0])];
    } else if args != [] {
      var more := ArgTokens(args[1..], close);
      CloseTokens(more);
      FirstToken(args[0], [Sym(",")] + more);
      ParseExprTokens(args[0], [Sym(",")] + more, 0, max);
      ClimbStops(Bare(args[0]), [Sym(",")] + more, 0, max);
      ParseArgTokens(args[1..], rest, max);
      assert args == [args[0]] + args[1..];
    }
  }

  /** No expression starts with a closing token. */
  lemma {:induction false} FirstToken(e: Expr, rest: seq<Token>)
    requires WellFormed(e)
    ensures var ts := ExprTokens(e, rest);
      ts != [] && ts[0] != Sym(")") && ts[0] != Sym(";") && ts[0] != Sym("}") && ts[0] != Word("let") && ts[0] != Word("if")
  {
    match e
    case Bin(op, l, r) => FirstToken(l, [Sym(op.Text())] + ExprTokens(r, rest));
    case _ =>
  }

  lemma ParseWhole(e: Expr, mark: string, rest: seq<Token>, max: nat)
    requires WellFormed(e) && mark in {"=", ";", "{", ".."}
    ensures ParseExpr(ExprTokens(e, [Sym(mark)] + rest), 0, max)
         == if Fits(e, max) then Done(Bare(e), [Sym(mark)] + rest) else Error(InvalidCharacter)
  {
    var ts := [Sym(mark)] + rest;
    assert ts[0] == Sym(mark);
    assert Prec(ts) == 0;
    ParseExprTokens(e, ts, 0, max);
  }

  lemma TailOf<T>(x: T, xs: seq<T>)
    ensures ([x] + xs)[0] == x && ([x] + xs)[1..] == xs
  {
  }

  lemma ParseLet(x: string, e: Expr, rest: seq<Token>, max: nat)
    requires IsName(x) && WellFormed(e)
    ensures ParseStmt(StmtTokens(Let(x, e), rest), max)
         == if Fits(e, max) then Done(Let(x, Bare(e)), rest) else Error(InvalidCharacter)
  {
    var semi := [Sym(";")] + rest;
    var value := ExprTokens(e, semi);
    var eq := [Sym("=")] + value;
    TailOf(Sym(";"), rest);
    TailOf(Sym("="), value);
    TailOf(Word(x), eq);
    TailOf(Word("let"), [Word(x)] + eq);
    ParseWhole(e, ";", rest, max);
  }

  lemma ParseReturn(e: Expr, rest: seq<Token>, max: nat)
    requires WellFormed(e)
    ensures ParseStmt(StmtTokens(Return(e), rest), max)
         == if Fits(e, max) then Done(Return(Bare(e)), rest) else Error(InvalidCharacter)
  {
    var semi := [Sym(";")] + rest;
    TailOf(Sym(";"), rest);
    TailOf(Word("return"), ExprTokens(e, semi));
    FirstToken(e, semi);
    ParseWhole(e, ";", rest, max);
  }

  predicate StartsExpression(ts: seq<Token>) {
    ts != [] && ts[0].Word? && ts[0].text !in KEYWORDS
  }

  lemma KeywordsHold()
    ensures {"let", "return", "for", "if"} + OTHER_STATEMENTS <= KEYWORDS
  {
  }

  lemma SimpleStatement(ts: seq<Token>, max: nat)
    requires StartsExpression(ts)
    ensures ParseStmt(ts, max) == ParseSimple(ts, max)
  {
    KeywordsHold();
  }

  /** A statement that starts with a name goes through the expression parser. */
  lemma ParseNamed(ts: seq<Token>, max: nat)
    requires StartsExpression(ts)
    ensures ParseExpr(ts, 0, max).Error? ==> ParseStmt(ts, max) == Error(ParseExpr(ts, 0, max).error)
    ensures ParseExpr(ts, 0, max).Done? && At(ParseExpr(ts, 0, max).rest, Sym(";")) ==>
      ParseStmt(ts, max) == Done(Do(ParseExpr(ts, 0, max).value), ParseExpr(ts, 0, max).rest[1..])
  {
    SimpleStatement(ts, max);
  }

  lemma ParseDo(e: Expr, rest: seq<Token>, max: nat)
    requires e.Call? && WellFormed(e)
    ensures ParseStmt(StmtTokens(Do(e), rest), max)
         == if Fits(e, max) then Done(Do(Bare(e)), rest) else Error(InvalidCharacter)
  {
    TailOf(Sym(";"), rest);
    var ts := ExprTokens(e, [Sym(";")] + rest);
    assert ts[0] == Word(e.func);
    ParseWhole(e, ";", rest, max);
    ParseNamed(ts, max);
  }

  /** So does an assignment, on both sides. */
  lemma ParseAssigned(ts: seq<Token>, x: string, right: seq<Token>, max: nat)
    requires StartsExpression(ts) && ParseExpr(ts, 0, max) == Done(Var(x), [Sym("=")] + right)
    ensures ParseExpr(right, 0, max).Error? ==> ParseStmt(ts, max) == Error(ParseExpr(right, 0, max).error)
    ensures ParseExpr(right, 0, max).Done? && At(ParseExpr(right, 0, max).rest, Sym(";")) ==>
      ParseStmt(ts, max) == Done(Assign(x, ParseExpr(right, 0, max).value), ParseExpr(right, 0, max).rest[1..])
  {
    SimpleStatement(ts, max);
    TailOf(Sym("="), right);
  }

  lemma ParseAssign(x: string, e: Expr, rest: seq<Token>, max: nat)
    requires IsName(x) && WellFormed(e)
    ensures ParseStmt(StmtTokens(Assign(x, e), rest), max)
         == if Fits(e, max) then Done(Assign(x, Bare(e)), rest) else Error(InvalidCharacter)
  {
    var value := ExprTokens(e, [Sym(";")] + rest);
    TailOf(Sym(";"), rest);
    TailOf(Word(x), [Sym("=")] + value);
    ParseWhole(Var(x), "=", value, max);
    ParseWhole(e, ";", rest, max);
    ParseAssigned([Word(x)] + ([Sym("=")] + value), x, value, max);
  }

  lemma ParseBlockTokens(body: seq<Stmt>, rest: seq<Token>, max: nat)
    requires WellFormedBlock(body)
    requires ParseStmts(BlockTokens(body, [Sym("}")] + rest), max)
          == if FitsBlock(body, max) then Done(BareBlock(body), [Sym("}")] + rest) else Error(InvalidCharacter)
    ensures ParseBlock([Sym("{")] + BlockTokens(body, [Sym("}")] + rest), max)
         == if FitsBlock(body, max) then Done(BareBlock(body), rest) else Error(InvalidCharacter)
  {
    TailOf(Sym("{"), BlockTokens(body, [Sym("}")] + rest));
    TailOf(Sym("}"), rest);
  }

  /** The loop head, given what its bounds and its body parse to. */
  lemma ParseLoop(x: string, ts: seq<Token>, a: Expr, range: seq<Token>, b: Parsed<Expr>, max: nat)
    requires IsName(x) && ParseExpr(ts, 0, max) == Done(a, [Sym("..")] + range) && ParseExpr(range, 0, max) == b
    ensures var s := ParseStmt([Word("for")] + ([Word(x)] + ([Word("in")] + ts)), max);
      && (b.Error? ==> s == Error(b.error))
      && (b.Done? && ParseBlock(b.rest, max).Error? ==> s == Error(ParseBlock(b.rest, max).error))
      && (b.Done? && ParseBlock(b.rest, max).Done? ==>
            s == Done(For(x, a, b.value, ParseBlock(b.rest, max).value), ParseBlock(b.rest, max).rest))
  {
    TailOf(Sym(".."), range);
    ForOpens(x, ts);
  }

  lemma ParseLoopFails(x: string, ts: seq<Token>, max: nat)
    requires IsName(x) && ParseExpr(ts, 0, max).Error?
    ensures ParseStmt([Word("for")] + ([Word(x)] + ([Word("in")] + ts)), max) == Error(ParseExpr(ts, 0, max).error)
  {
    ForOpens(x, ts);
  }

  lemma ForOpens(x: string, ts: seq<Token>)
    requires IsName(x)
    ensures var head := [Word("for")] + ([Word(x)] + ([Word("in")] + ts));
      && head[0] == Word("for") && Identifier(head[1..]) == Done(x, [Word("in")] + ts)
      && Expect([Word("in")] + ts, Word("in")) == Done(Word("in"), ts)
  {
    TailOf(Word("in"), ts);
    TailOf(Word(x), [Word("in")] + ts);
    TailOf(Word("for"), [Word(x)] + ([Word("in")] + ts));
  }

  lemma ParseFor(x: string, a: Expr, b: Expr, body: seq<Stmt>, rest: seq<Token>, max: nat)
    requires WellFormedStmt(For(x, a, b, body))
    requires ParseBlock([Sym("{")] + BlockTokens(body, [Sym("}")] + rest), max)
          == if FitsBlock(body, max) then Done(BareBlock(body), rest) else Error(InvalidCharacter)
    ensures ParseStmt(StmtTokens(For(x, a, b, body), rest), max)
         == if FitsStmt(For(x, a, b, body), max) then Done(BareStmt(For(x, a, b, body)), rest) else Error(InvalidCharacter)
  {
    var inner := BlockTokens(body, [Sym("}")] + rest);
    var end := ExprTokens(b, [Sym("{")] + inner);
    var start := ExprTokens(a, [Sym("..")] + end);
    ParseWhole(a, "..", end, max);
    ParseWhole(b, "{", inner, max);
    if Fits(a, max) {
      ParseLoop(x, start, Bare(a), end, ParseExpr(end, 0, max), max);
    } else {
      ParseLoopFails(x, start, max);
    }
  }

  lemma IfStatement(ts: seq<Token>, max: nat)
    ensures ParseStmt([Word("if")] + ts, max) == ParseIf(ts, max)
  {
    TailOf(Word("if"), ts);
  }

  lemma ParseIfPlain(c: Expr, t: seq<Stmt>, rest: seq<Token>, max: nat)
    requires WellFormed(c)
    requires ParseBlock([Sym("{")] + BlockTokens(t, [Sym("}")] + ([Sym(";")] + rest)), max)
          == if FitsBlock(t, max) then Done(BareBlock(t), [Sym(";")] + rest) else Error(InvalidCharacter)
    ensures ParseStmt(StmtTokens(If(c, t, [], false), rest), max)
         == if Fits(c, max) && FitsBlock(t, max) then Done(If(Bare(c), BareBlock(t), [], false), rest) else Error(InvalidCharacter)
  {
    var semi := [Sym(";")] + rest;
    var inner := BlockTokens(t, [Sym("}")] + semi);
    var ts := ExprTokens(c, [Sym("{")] + inner);
    IfStatement(ts, max);
    TailOf(Sym(";"), rest);
    FirstToken(c, [Sym("{")] + inner);
    ParseWhole(c, "{", inner, max);
    ConditionalEnds(ts, semi, max);
  }

  /** A conditional without `else`, in front of a semicolon. */
  lemma ConditionalEnds(ts: seq<Token>, semi: seq<Token>, max: nat)
    requires !At(ts, Word("let")) && At(semi, Sym(";"))
    ensures var c := ParseExpr(ts, 0, max);
      && (c.Error? ==> ParseIf(ts, max) == Error(c.error))
      && (c.Done? ==> var t := ParseBlock(c.rest, max);
            && (t.Error? ==> ParseIf(ts, max) == Error(t.error))
            && (t.Done? && t.rest == semi ==> ParseIf(ts, max) == Done(If(c.value, t.value, [], false), semi[1..])))
  {
    assert Prec(semi) == 0;
  }

  /** A conditional with `else`, in front of a semicolon. */
  lemma AlternativeEnds(ts: seq<Token>, block: seq<Token>, semi: seq<Token>, max: nat)
    requires !At(ts, Word("let")) && At(semi, Sym(";")) && At(block, Sym("{"))
    ensures var c := ParseExpr(ts, 0, max);
      && (c.Error? ==> ParseIf(ts, max) == Error(c.error))
      && (c.Done? ==> var t := ParseBlock(c.rest, max);
            && (t.Error? ==> ParseIf(ts, max) == Error(t.error))
            && (t.Done? && t.rest == [Word("else")] + block ==> var e := ParseBlock(block, max);
                  && (e.Error? ==> ParseIf(ts, max) == Error(e.error))
                  && (e.Done? && e.rest == semi ==> ParseIf(ts, max) == Done(If(c.value, t.value, e.value, true), semi[1..]))))
  {
    assert Prec(semi) == 0;
    TailOf(Word("else"), block);
  }

  lemma ParseIfElse(c: Expr, t: seq<Stmt>, e: seq<Stmt>, rest: seq<Token>, max: nat)
    requires WellFormed(c)
    requires var otherwise := ElseTokens(e, [Sym(";")] + rest);
      ParseBlock([Sym("{")] + BlockTokens(t, [Sym("}")] + otherwise), max)
      == if FitsBlock(t, max) then Done(BareBlock(t), otherwise) else Error(InvalidCharacter)
    requires ParseBlock([Sym("{")] + BlockTokens(e, [Sym("}")] + ([Sym(";")] + rest)), max)
          == if FitsBlock(e, max) then Done(BareBlock(e), [Sym(";")] + rest) else Error(InvalidCharacter)
    ensures ParseStmt(StmtTokens(If(c, t, e, true), rest), max)
         == if Fits(c, max) && FitsBlock(t, max) && FitsBlock(e, max)
            then Done(If(Bare(c), BareBlock(t), BareBlock(e), true), rest) else Error(InvalidCharacter)
  {
    var semi := [Sym(";")] + rest;
    var block := [Sym("{")] + BlockTokens(e, [Sym("}")] + semi);
    var otherwise := ElseTokens(e, semi);
    var inner := BlockTokens(t, [Sym("}")] + otherwise);
    var ts := ExprTokens(c, [Sym("{")] + inner);
    IfStatement(ts, max);
    TailOf(Sym(";"), rest);
    FirstToken(c, [Sym("{")] + inner);
    ParseWhole(c, "{", inner, max);
    AlternativeEnds(ts, block, semi, max);
  }

  lemma {:induction false} ParseStmtTokens(s: Stmt, rest: seq<Token>, max: nat)
    requires WellFormedStmt(s)
    ensures ParseStmt(StmtTokens(s, rest), max) == if FitsStmt(s, max) then Done(BareStmt(s), rest) else Error(InvalidCharacter)
    decreases s, 1
  {
    match s
    case Let(x, e) => ParseLet(x, e, rest, max);
    case Assign(x, e) => ParseAssign(x, e, rest, max);
    case Return(e) => ParseReturn(e, rest, max);
    case Do(e) => ParseDo(e, rest, max);
    case For(x, a, b, body) =>
      ParseStmtsTokens(body, [Sym("}")] + rest, max);
      ParseBlockTokens(body, rest, max);
      ParseFor(x, a, b, body, rest, max);
    case If(c, t, e, hasElse) =>
      var semi := [Sym(";")] + rest;
      var after := if hasElse then ElseTokens(e, semi) else semi;
      ParseStmtsTokens(t, [Sym("}")] + after, max);
      ParseBlockTokens(t, after, max);
      if hasElse {
        ParseStmtsTokens(e, [Sym("}")] + semi, max);
        ParseBlockTokens(e, semi, max);
        ParseIfElse(c, t, e, rest, max);
      } else {
        ParseIfPlain(c, t, rest, max);
      }
  }

  lemma {:induction false} FirstStmtToken(s: Stmt, rest: seq<Token>)
    requires WellFormedStmt(s)
    ensures StmtTokens(s, rest) != [] && StmtTokens(s, rest)[0] != Sym("}")
  {
    if s.Do? {
      FirstToken(s.call, [Sym(";")] + rest);
    }
  }

  lemma {:induction false} ParseStmtsTokens(ss: seq<Stmt>, rest: seq<Token>, max: nat)
    requires WellFormedBlock(ss) && At(rest, Sym("}"))
    ensures ParseStmts(BlockTokens(ss, rest), max) == if FitsBlock(ss, max) then Done(BareBlock(ss), rest) else Error(InvalidCharacter)
    decreases ss, 0
  {
    if ss != [] {
      var more := BlockTokens(ss[1..], rest);
      FirstStmtToken(ss[0], more);
      ParseStmtTokens(ss[0], more, max);
      ParseStmtsTokens(ss[1..], rest, max);
      assert ss == [ss[0]] + ss[1..];
    }
  }

  lemma ParseLastParam(x: string, rest: seq<Token>)
    requires IsName(x)
    ensures ParseParams([Word(x)] + ([Sym(":")] + ([Word("int")] + ([Sym(")")] + rest)))) == Done([x], rest)
  {
    var s3 := [Sym(")")] + rest;
    TailOf(Sym(")"), rest);
    TailOf(Word("int"), s3);
    TailOf(Sym(":"), [Word("int")] + s3);
    TailOf(Word(x), [Sym(":")] + ([Word("int")] + s3));
  }

  lemma ParseMoreParams(x: string, more: seq<Token>, params: seq<string>, rest: seq<Token>)
    requires IsName(x) && ParseParams(more) == Done(params, rest)
    ensures ParseParams([Word(x)] + ([Sym(":")] + ([Word("int")] + ([Sym(",")] + more)))) == Done([x] + params, rest)
  {
    var s3 := [Sym(",")] + more;
    var s2 := [Word("int")] + s3;
    TailOf(Sym(","), more);
    TailOf(Word("int"), s3);
    assert s2[2..] == more;
    TailOf(Sym(":"), s2);
    TailOf(Word(x), [Sym(":")] + s2);
  }

  lemma {:induction false} ParseParamTokens(params: seq<string>, rest: seq<Token>)
    requires forall p :: p in params ==> IsName(p)
    ensures ParseParams(ParamTokens(params, [Sym(")")] + rest)) == Done(params, rest)
  {
    if params == [] {
      TailOf(Sym(")"), rest);
    } else {
      assert params[0] in params;
      assert params == [params[0]] + params[1..];
      if |params| == 1 {
        assert params == [params[0]];
        ParseLastParam(params[0], rest);
      } else {
        ParseParamTokens(params[1..], rest);
        ParseMoreParams(params[0], ParamTokens(params[1..], [Sym(")")] + rest), params[1..], rest);
      }
    }
  }

  lemma FnDeclaration(ts: seq<Token>, max: nat)
    ensures ParseDecl([Word("fn")] + ts, max) == ParseFn(ts, max)
  {
    TailOf(Word("fn"), ts);
  }

  lemma ParseFnHead(f: string, params: seq<string>, block: seq<Token>, body: Parsed<seq<Stmt>>, max: nat)
    requires IsName(f) && (forall p :: p in params ==> IsName(p)) && ParseBlock(block, max) == body
    ensures var ts := [Word(f)] + ([Sym("(")] + ParamTokens(params, [Sym(")")] + ([Sym("->")] + ([Word("int")] + block))));
      && (body.Done? ==> ParseFn(ts, max) == Done(Fn(f, params, body.value, false), body.rest))
      && (body.Error? ==> ParseFn(ts, max) == Error(body.error))
  {
    var typed := [Word("int")] + block;
    var result := [Sym("->")] + typed;
    var list := ParamTokens(params, [Sym(")")] + result);
    TailOf(Word("int"), block);
    TailOf(Sym("->"), typed);
    ParseParamTokens(params, result);
    TailOf(Sym("("), list);
    TailOf(Word(f), [Sym("(")] + list);
  }

  lemma ParseFnTokens(f: string, params: seq<string>, body: seq<Stmt>, rest: seq<Token>, max: nat)
    requires WellFormedDecl(Fn(f, params, body, false))
    ensures ParseDecl(DeclTokens(Fn(f, params, body, false), rest), max)
         == if FitsBlock(body, max) then Done(Fn(f, params, BareBlock(body), false), rest) else Error(InvalidCharacter)
  {
    var close := [Sym("}")] + rest;
    var block := [Sym("{")] + BlockTokens(body, close);
    ParseStmtsTokens(body, close, max);
    ParseBlockTokens(body, rest, max);
    ParseFnHead(f, params, block, ParseBlock(block, max), max);
    FnDeclaration([Word(f)] + ([Sym("(")] + ParamTokens(params, [Sym(")")] + ([Sym("->")] + ([Word("int")] + block)))), max);
  }

  lemma TestDeclaration(ts: seq<Token>, max: nat)
    ensures ParseDecl([Sym("@")] + ([Word("test")] + ts), max) == ParseTest(ts, max)
  {
    TailOf(Word("test"), ts);
    TailOf(Sym("@"), [Word("test")] + ts);
    assert ([Sym("@")] + ([Word("test")] + ts))[2..] == ts;
  }

  lemma ParseTestHead(lit: string, block: seq<Token>, max: nat)
    requires |lit| >= 2
    ensures var ts := [Str(lit)] + ([Sym("(")] + ([Sym(")")] + block));
      var body := ParseBlock(block, max);
      && (body.Done? ==> ParseTest(ts, max) == Done(Test(lit[1..|lit| - 1], body.value, false), body.rest))
      && (body.Error? ==> ParseTest(ts, max) == Error(body.error))
  {
    var s2 := [Sym(")")] + block;
    var s1 := [Sym("(")] + s2;
    TailOf(Sym(")"), block);
    TailOf(Sym("("), s2);
    TailOf(Str(lit), s1);
  }

  lemma ParseTestTokens(tag: string, body: seq<Stmt>, rest: seq<Token>, max: nat)
    requires WellFormedDecl(Test(tag, body, false))
    ensures ParseDecl(DeclTokens(Test(tag, body, false), rest), max)
         == if FitsBlock(body, max) then Done(Test(tag, BareBlock(body), false), rest) else Error(InvalidCharacter)
  {
    var close := [Sym("}")] + rest;
    ParseStmtsTokens(body, close, max);
    ParseBlockTokens(body, rest, max);
    var lit := "\"" + (tag + "\"");
    assert lit[1..|lit| - 1] == tag;
    var block := [Sym("{")] + BlockTokens(body, close);
    ParseTestHead(lit, block, max);
    TestDeclaration([Str(lit)] + ([Sym("(")] + ([Sym(")")] + block)), max);
  }

  /** What follows the closing brace of a declaration. */
  function AfterDecl(closed: bool, rest: seq<Token>): seq<Token> {
    if closed then [Sym(";")] + rest else rest
  }

  lemma ParseDeclTokens(d: Decl, rest: seq<Token>, max: nat)
    requires WellFormedDecl(d)
    ensures ParseDecl(DeclTokens(d, rest), max)
         == if FitsBlock(d.body, max) then Done(BareDecl(d), AfterDecl(d.closed, rest)) else Error(InvalidCharacter)
  {
    var after := AfterDecl(d.closed, rest);
    assert EndTokens(d.closed, rest) == EndTokens(false, after);
    match d
    case Fn(f, params, body, _) =>
      assert DeclTokens(d, rest) == DeclTokens(Fn(f, params, body, false), after);
      ParseFnTokens(f, params, body, after, max);
    case Test(tag, body, _) =>
      assert DeclTokens(d, rest) == DeclTokens(Test(tag, body, false), after);
      ParseTestTokens(tag, body, after, max);
  }

  lemma FirstDeclToken(d: Decl, rest: seq<Token>)
    ensures DeclTokens(d, rest) != [] && DeclTokens(d, rest)[0] != Sym(";")
  {
  }

  lemma {:induction false} ParseProgramCons(d: Parsed<Decl>, ts: seq<Token>, closed: bool, more: seq<Token>, ds: Parsed<seq<Decl>>, max: nat)
    requires ts != [] && ParseDecl(ts, max) == d
    requires d.Done? ==> d.rest == AfterDecl(closed, more) && !At(more, Sym(";"))
    requires ParseProgram(more, max) == ds
    ensures d.Error? ==> ParseProgram(ts, max) == Error(d.error)
    ensures d.Done? && ds.Error? ==> ParseProgram(ts, max) == ds
    ensures d.Done? && ds.Done? ==> ParseProgram(ts, max) == Done([d.value] + ds.value, ds.rest)
  {
    TailOf(Sym(";"), more);
  }

  /** Parsing the tokens of a program gives the program, unless a literal is out of range. */
  lemma {:induction false} ParseProgramTokens(ds: seq<Decl>, max: nat)
    requires WellFormedProgram(ds)
    ensures ParseProgram(ProgramTokens(ds, []), max)
         == if FitsProgram(ds, max) then Done(BareProgram(ds), []) else Error(InvalidCharacter)
  {
    if ds != [] {
      assert ds[0] in ds;
      var more := ProgramTokens(ds[1..], []);
      var ts := DeclTokens(ds[0], more);
      ParseProgramTokens(ds[1..], max);
      ParseDeclTokens(ds[0], more, max);
      FirstDeclToken(ds[0], more);
      if |ds| > 1 {
        FirstDeclToken(ds[1], ProgramTokens(ds[2..], []));
        assert ds[1..][1..] == ds[2..];
      }
      ParseProgramCons(ParseDecl(ts, max), ts, ds[0].closed, more, ParseProgram(more, max), max);
      FitsCons(ds, max);
    }
  }

  /** What a program is followed by decides whether all of it can be parsed. */
  lemma {:induction false} ParseProgramBefore(ds: seq<Decl>, ts: seq<Token>, max: nat)
    requires WellFormedProgram(ds) && !At(ts, Sym(";")) && ParseProgram(ts, max).Error?
    ensures ParseProgram(ProgramTokens(ds, ts), max).Error?
  {
    if ds != [] {
      assert ds[0] in ds;
      var more := ProgramTokens(ds[1..], ts);
      var all := DeclTokens(ds[0], more);
      ParseProgramBefore(ds[1..], ts, max);
      ParseDeclTokens(ds[0], more, max);
      FirstDeclToken(ds[0], more);
      if |ds| > 1 {
        FirstDeclToken(ds[1], ProgramTokens(ds[2..], ts));
        assert ds[1..][1..] == ds[2..];
      }
      ParseProgramCons(ParseDecl(all, max), all, ds[0].closed, more, ParseProgram(more, max), max);
    }
  }

  lemma FitsCons(ds: seq<Decl>, max: nat)
    requires ds != []
    ensures FitsProgram(ds, max) <==> FitsBlock(ds[0].body, max) && FitsProgram(ds[1..], max)
  {
    assert ds == [ds[0]] + ds[1..];
  }
}
