/** The fragment of the SLA language that generated programs use: its syntax trees, the layout they are printed in,
    and the tokens that layout stands for. */
module SlaSyntax {
  import opened Decimal

  datatype Op = Add | Sub | Mul | Gt | Ne {
    function Text(): string {
      match this case Add => "+" case Sub => "-" case Mul => "*" case Gt => ">" case Ne => "!="
    }

    /** Binding strength: products over sums over comparisons over (in)equality. */
    function Level(): nat {
      match this case Add => 7 case Sub => 7 case Mul => 8 case Gt => 5 case Ne => 4
    }
  }

  /** `Group` is a pair of parentheses in the text; it is not part of a parsed tree. */
  datatype Expr =
    | Num(n: nat)
    | Var(name: string)
    | Call(func: string, args: seq<Expr>)
    | Bin(op: Op, left: Expr, right: Expr)
    | Group(inner: Expr)

  datatype Stmt =
    | Let(name: string, value: Expr)
    | Assign(name: string, value: Expr)
    | For(name: string, start: Expr, end: Expr, body: seq<Stmt>)
    | If(cond: Expr, then_: seq<Stmt>, else_: seq<Stmt>, hasElse: bool)
    | Return(value: Expr)
    | Do(call: Expr)

  /** `closed` tells whether a semicolon follows in the text; a parsed declaration does not record it. */
  datatype Decl =
    | Fn(name: string, params: seq<string>, body: seq<Stmt>, closed: bool)
    | Test(tag: string, body: seq<Stmt>, closed: bool)

  datatype Token = Word(text: string) | Int(text: string) | Str(text: string) | Sym(text: string) | Bad

  // ----- words -----

  predicate IsLetter(c: char) {
    'a' <= c <= 'z' || 'A' <= c <= 'Z'
  }

  predicate IsWordChar(c: char) {
    IsLetter(c) || IsDigit(c) || c == '_'
  }

  predicate IsWord(s: string) {
    s != "" && (IsLetter(s[0]) || s[0] == '_') && forall c :: c in s ==> IsWordChar(c)
  }

  const KEYWORDS: set<string> :=
    {"struct", "union", "enum", "trait", "overload", "dyn", "impl", "mod", "using", "pub", "extern", "async", "await",
     "unsafe", "as", "fn", "if", "else", "match", "switch", "return", "for", "while", "break", "continue", "in", "let",
     "const", "var", "inline", "macro", "mut", "type", "go", "defer", "select"}

  /** Identifiers that the parser treats specially in some position; the fragment has none of them as names. */
  const SPECIAL: set<string> := {"true", "false", "asm", "arena", "Some", "None", "Option", "Ok", "Err", "Result"}

  predicate IsName(s: string) {
    IsWord(s) && s !in KEYWORDS && s !in SPECIAL
  }

  // ----- well-formed trees -----

  function ExprLevel(e: Expr): nat {
    if e.Bin? then e.op.Level() else 9
  }

  /** Names are names, and parentheses stand wherever precedence or left association needs them. */
  predicate WellFormed(e: Expr) {
    match e
    case Num(_) => true
    case Var(x) => IsName(x)
    case Call(f, args) => IsName(f) && forall a :: a in args ==> WellFormed(a)
    case Bin(op, l, r) => WellFormed(l) && WellFormed(r) && ExprLevel(l) >= op.Level() && ExprLevel(r) > op.Level()
    case Group(i) => WellFormed(i)
  }

  predicate WellFormedStmt(s: Stmt) {
    match s
    case Let(x, e) => IsName(x) && WellFormed(e)
    case Assign(x, e) => IsName(x) && WellFormed(e)
    case For(x, a, b, body) => IsName(x) && WellFormed(a) && WellFormed(b) && forall t :: t in body ==> WellFormedStmt(t)
    case If(c, t, e, hasElse) =>
      WellFormed(c) && (forall u :: u in t ==> WellFormedStmt(u)) && (forall u :: u in e ==> WellFormedStmt(u))
      && (!hasElse ==> e == [])
    case Return(e) => WellFormed(e)
    case Do(e) => e.Call? && WellFormed(e)
  }

  predicate WellFormedBlock(ss: seq<Stmt>) {
    forall s :: s in ss ==> WellFormedStmt(s)
  }

  /** Backslash escapes are skipped over, and no quote stands unescaped. */
  predicate QuoteSafe(s: string) {
    s == "" || (s[0] != '"' && if s[0] == '\\' then |s| > 1 && QuoteSafe(s[2..]) else QuoteSafe(s[1..]))
  }

  predicate WellFormedDecl(d: Decl) {
    match d
    case Fn(f, params, body, _) => IsName(f) && (forall p :: p in params ==> IsName(p)) && WellFormedBlock(body)
    case Test(tag, body, _) => QuoteSafe(tag) && WellFormedBlock(body)
  }

  predicate WellFormedProgram(ds: seq<Decl>) {
    forall d :: d in ds ==> WellFormedDecl(d)
  }

  // ----- layout: the text of a tree, followed by `k` -----

  function PrintExpr(e: Expr, k: string): string
    decreases e, 1
  {
    match e
    case Num(n) => Print(n) + k
    case Var(x) => x + k
    case Call(f, args) => f + ("(" + PrintArgs(args, ")" + k))
    case Bin(op, l, r) => PrintExpr(l, " " + (op.Text() + (" " + PrintExpr(r, k))))
    case Group(i) => "(" + PrintExpr(i, ")" + k)
  }

  function PrintArgs(args: seq<Expr>, k: string): string
    decreases args, 0
  {
    if args == [] then k
    else if |args| == 1 then PrintExpr(args[0], k)
    else PrintExpr(args[0], "," + (" " + PrintArgs(args[1..], k)))
  }

  function Indent(depth: nat): string {
    seq(depth, _ => ' ')
  }

  function PrintStmt(s: Stmt, depth: nat, k: string): string
    decreases s, 1
  {
    Indent(depth) +
    match s
    case Let(x, e) => "let" + (" " + (x + (" " + ("=" + (" " + PrintExpr(e, ";" + ("\n" + k)))))))
    case Assign(x, e) => x + (" " + ("=" + (" " + PrintExpr(e, ";" + ("\n" + k)))))
    case Return(e) => "return" + (" " + PrintExpr(e, ";" + ("\n" + k)))
    case Do(e) => PrintExpr(e, ";" + ("\n" + k))
    case For(x, a, b, body) =>
      var inner := PrintBlock(body, depth + 4, Indent(depth) + ("}" + ("\n" + k)));
      "for" + (" " + (x + (" " + ("in" + (" " + PrintExpr(a, ".." + PrintExpr(b, " " + ("{" + ("\n" + inner)))))))))
    case If(c, t, e, hasElse) =>
      var after := ";" + ("\n" + k);
      var rest := if hasElse then PrintElse(e, depth, after) else after;
      "if" + (" " + PrintExpr(c, " " + ("{" + ("\n" + PrintBlock(t, depth + 4, Indent(depth) + ("}" + rest))))))
  }

  function PrintElse(e: seq<Stmt>, depth: nat, k: string): string
    decreases e, 1
  {
    " " + ("else" + (" " + ("{" + ("\n" + PrintBlock(e, depth + 4, Indent(depth) + ("}" + k))))))
  }

  function PrintBlock(ss: seq<Stmt>, depth: nat, k: string): string
    decreases ss, 0
  {
    if ss == [] then k else PrintStmt(ss[0], depth, PrintBlock(ss[1..], depth, k))
  }

  function PrintParams(params: seq<string>, k: string): string {
    if params == [] then k
    else params[0] + (":" + (" " + ("int" + if |params| == 1 then k else "," + (" " + PrintParams(params[1..], k)))))
  }

  function PrintEnd(closed: bool, k: string): string {
    "}" + if closed then ";" + ("\n" + k) else "\n" + k
  }

  function PrintDecl(d: Decl, k: string): string {
    var inner := PrintBlock(d.body, 4, PrintEnd(d.closed, k));
    match d
    case Fn(f, params, _, _) =>
      "fn" + (" " + (f + ("(" + PrintParams(params, ")" + (" " + ("->" + (" " + ("int" + (" " + ("{" + ("\n" + inner)))))))))))
    case Test(tag, _, _) =>
      "@" + ("test" + (" " + (("\"" + (tag + "\"")) + ("(" + (")" + (" " + ("{" + ("\n" + inner))))))))
  }

  /** Declarations with a blank line between them. */
  function PrintProgram(ds: seq<Decl>, k: string): string {
    if ds == [] then k else PrintDecl(ds[0], if |ds| == 1 then k else "\n" + PrintProgram(ds[1..], k))
  }

  // ----- the tokens of a tree, followed by `ts` -----

  function ExprTokens(e: Expr, ts: seq<Token>): seq<Token>
    decreases e, 1
  {
    match e
    case Num(n) => [Int(Print(n))] + ts
    case Var(x) => [Word(x)] + ts
    case Call(f, args) => [Word(f)] + ([Sym("(")] + ArgTokens(args, [Sym(")")] + ts))
    case Bin(op, l, r) => ExprTokens(l, [Sym(op.Text())] + ExprTokens(r, ts))
    case Group(i) => [Sym("(")] + ExprTokens(i, [Sym(")")] + ts)
  }

  function ArgTokens(args: seq<Expr>, ts: seq<Token>): seq<Token>
    decreases args, 0
  {
    if args == [] then ts
    else if |args| == 1 then ExprTokens(args[0], ts)
    else ExprTokens(args[0], [Sym(",")] + ArgTokens(args[1..], ts))
  }

  function StmtTokens(s: Stmt, ts: seq<Token>): seq<Token>
    decreases s, 1
  {
    match s
    case Let(x, e) => [Word("let")] + ([Word(x)] + ([Sym("=")] + ExprTokens(e, [Sym(";")] + ts)))
    case Assign(x, e) => [Word(x)] + ([Sym("=")] + ExprTokens(e, [Sym(";")] + ts))
    case Return(e) => [Word("return")] + ExprTokens(e, [Sym(";")] + ts)
    case Do(e) => ExprTokens(e, [Sym(";")] + ts)
    case For(x, a, b, body) =>
      var inner := BlockTokens(body, [Sym("}")] + ts);
      [Word("for")] + ([Word(x)] + ([Word("in")] + ExprTokens(a, [Sym("..")] + ExprTokens(b, [Sym("{")] + inner))))
    case If(c, t, e, hasElse) =>
      var after := [Sym(";")] + ts;
      var rest := if hasElse then ElseTokens(e, after) else after;
      [Word("if")] + ExprTokens(c, [Sym("{")] + BlockTokens(t, [Sym("}")] + rest))
  }

  function ElseTokens(e: seq<Stmt>, ts: seq<Token>): seq<Token>
    decreases e, 1
  {
    [Word("else")] + ([Sym("{")] + BlockTokens(e, [Sym("}")] + ts))
  }

  function BlockTokens(ss: seq<Stmt>, ts: seq<Token>): seq<Token>
    decreases ss, 0
  {
    if ss == [] then ts else StmtTokens(ss[0], BlockTokens(ss[1..], ts))
  }

  function ParamTokens(params: seq<string>, ts: seq<Token>): seq<Token> {
    if params == [] then ts
    else [Word(params[0])] + ([Sym(":")] + ([Word("int")] + if |params| == 1 then ts else [Sym(",")] + ParamTokens(params[1..], ts)))
  }

  function EndTokens(closed: bool, ts: seq<Token>): seq<Token> {
    [Sym("}")] + if closed then [Sym(";")] + ts else ts
  }

  function DeclTokens(d: Decl, ts: seq<Token>): seq<Token> {
    var inner := BlockTokens(d.body, EndTokens(d.closed, ts));
    match d
    case Fn(f, params, _, _) =>
      [Word("fn")] + ([Word(f)] + ([Sym("(")] + ParamTokens(params, [Sym(")")] + ([Sym("->")] + ([Word("int")] + ([Sym("{")] + inner))))))
    case Test(tag, _, _) =>
      [Sym("@")] + ([Word("test")] + ([Str("\"" + (tag + "\""))] + ([Sym("(")] + ([Sym(")")] + ([Sym("{")] + inner)))))
  }

  function ProgramTokens(ds: seq<Decl>, ts: seq<Token>): seq<Token> {
    if ds == [] then ts else DeclTokens(ds[0], ProgramTokens(ds[1..], ts))
  }
}
