/** The calls of a companion and the definitions they go to. */
module CallResolution {
  import opened SlaSyntax
  import opened SlaParser
  import opened Rosetta
  import opened RosettaRuns
  import opened Companion

  ghost predicate OneDefinition(prog: seq<Decl>, f: string, arity: nat) {
    exists i :: && 0 <= i < |prog| && prog[i].Fn? && prog[i].name == f && |prog[i].params| == arity
                && forall j :: 0 <= j < |prog| && j != i && prog[j].Fn? ==> prog[j].name != f
  }

  lemma DefinedAt(prog: seq<Decl>, f: string, i: nat)
    requires i < |prog| && prog[i].Fn? && prog[i].name == f
    requires forall j :: 0 <= j < |prog| && j != i && prog[j].Fn? ==> prog[j].name != f
    ensures OneDefinition(prog, f, |prog[i].params|)
  {
  }

  // ----- calls -----

  /** The functions that an expression calls, with the number of arguments. */
  function Calls(e: Expr): seq<(string, nat)>
    decreases e, 1
  {
    match e
    case Num(_) => []
    case Var(_) => []
    case Group(i) => Calls(i)
    case Bin(_, l, r) => Calls(l) + Calls(r)
    case Call(f, args) => [(f, |args|)] + ArgCalls(args)
  }

  function ArgCalls(args: seq<Expr>): seq<(string, nat)>
    decreases args, 0
  {
    if args == [] then [] else Calls(args[0]) + ArgCalls(args[1..])
  }

  function StmtCalls(s: Stmt): seq<(string, nat)>
    decreases s, 1
  {
    match s
    case Let(_, e) => Calls(e)
    case Assign(_, e) => Calls(e)
    case Return(e) => Calls(e)
    case Do(e) => Calls(e)
    case If(c, t, e, _) => Calls(c) + BlockCalls(t) + BlockCalls(e)
    case For(_, a, b, body) => Calls(a) + Calls(b) + BlockCalls(body)
  }

  function BlockCalls(ss: seq<Stmt>): seq<(string, nat)>
    decreases ss, 0
  {
    if ss == [] then [] else StmtCalls(ss[0]) + BlockCalls(ss[1..])
  }

  /** The call goes to the built-in `panic`, or to exactly one definition with as many parameters. */
  ghost predicate Resolves(prog: seq<Decl>, call: (string, nat)) {
    call == ("panic", 1) || OneDefinition(prog, call.0, call.1)
  }

  lemma CallsAppend(a: seq<Stmt>, b: seq<Stmt>)
    ensures BlockCalls(a + b) == BlockCalls(a) + BlockCalls(b)
  {
    if a == [] {
      assert a + b == b;
    } else {
      assert (a + b)[1..] == a[1..] + b;
      CallsAppend(a[1..], b);
    }
  }

  lemma OneCall(s: Stmt)
    ensures BlockCalls([s]) == StmtCalls(s)
  {
    assert BlockCalls([s][1..]) == [];
  }

  lemma Calls2(a: Stmt, b: Stmt)
    ensures BlockCalls([a, b]) == StmtCalls(a) + StmtCalls(b)
  {
    OneCall(b);
    assert [a, b][1..] == [b];
  }

  lemma Calls3(a: Stmt, b: Stmt, c: Stmt)
    ensures BlockCalls([a, b, c]) == StmtCalls(a) + (StmtCalls(b) + StmtCalls(c))
  {
    Calls2(b, c);
    assert [a, b, c][1..] == [b, c];
  }

  lemma Calls4(a: Stmt, b: Stmt, c: Stmt, d: Stmt)
    ensures BlockCalls([a, b, c, d]) == StmtCalls(a) + (StmtCalls(b) + (StmtCalls(c) + StmtCalls(d)))
  {
    Calls3(b, c, d);
    assert [a, b, c, d][1..] == [b, c, d];
  }

  lemma NoCallsNum(op: Op, x: string, k: nat)
    ensures Calls(Bin(op, Var(x), Num(k))) == []
  {
    assert Calls(Var(x)) == [] && Calls(Num(k)) == [];
  }

  lemma NoCallsVars(op: Op, x: string, y: string)
    ensures Calls(Bin(op, Var(x), Var(y))) == []
  {
    assert Calls(Var(x)) == [] && Calls(Var(y)) == [];
  }

  lemma NoCallsInSum(n: nat)
    ensures BlockCalls(SumStmts(n)) == []
  {
    var s := SumStmts(n);
    NoCallsNum(Add, "seed", n);
    NoCallsNum(Mul, "shifted", Factor(n));
    NoCallsNum(Sub, "scaled", Offset(n));
    Calls4(s[1], s[2], s[3], s[4]);
    OneCall(s[0]);
    assert s == [s[0]] + [s[1], s[2], s[3], s[4]];
    CallsAppend([s[0]], [s[1], s[2], s[3], s[4]]);
  }

  lemma NoCallsInBranches()
    ensures StmtCalls(Branches()) == []
  {
    NoCallsVars(Sub, "base", "threshold");
    NoCallsVars(Sub, "threshold", "base");
    NoCallsVars(Gt, "base", "threshold");
    OneCall(Return(Bin(Sub, Var("base"), Var("threshold"))));
    OneCall(Return(Bin(Sub, Var("threshold"), Var("base"))));
  }

  lemma NoCallsInDistance(n: nat)
    ensures BlockCalls(BareBlock(DistanceStmts(n))) == []
  {
    BareDistance(n);
    NoCallsInBranches();
    var product := Bin(Mul, Num(Seed(n)), Num(Factor(n)));
    assert Calls(Num(Seed(n))) == [] && Calls(Num(Factor(n))) == [] && Calls(Num(n)) == [];
    assert Calls(product) == [];
    assert Calls(Bin(Add, product, Num(n))) == [];
    Calls3(Let("base", Bin(Add, product, Num(n))), Let("threshold", Num(Threshold(n))), Branches());
  }

  lemma NoCallsInLoop(n: nat)
    ensures BlockCalls(BareBlock(LoopStmts(n))) == []
  {
    BareLoop(n);
    NoCallsVars(Add, "total", "i");
    OneCall(TotalStep()[0]);
    assert TotalStep() == [TotalStep()[0]];
    assert StmtCalls(TotalStep()[0]) == [];
    NoCallsNum(Add, "total", Offset(n));
    var s := LoopStmts(n);
    assert StmtCalls(s[1]) == [];
    Calls4(s[0], s[1], s[2], s[3]);
  }

  lemma NoCallsInMix()
    ensures BlockCalls(MixStmts()) == []
  {
    var s := MixStmts();
    NoCallsVars(Mul, "left", "right");
    NoCallsVars(Add, "product", "left");
    assert Calls(Var("right")) == [];
    assert Calls(Bin(Sub, Bin(Add, Var("product"), Var("left")), Var("right"))) == [];
    Calls3(s[0], s[1], s[2]);
  }

  lemma CallsInCall(n: nat)
    ensures BlockCalls(CallStmts(n)) == [(MixName(n), 2)]
  {
    var s := CallStmts(n);
    var a, b := Num(LeftArg(n)), Num(RightArg(n));
    assert ArgCalls([b]) == Calls(b) + ArgCalls([b][1..]);
    assert ArgCalls([a, b]) == Calls(a) + ArgCalls([a, b][1..]) && [a, b][1..] == [b];
    assert Calls(Call(MixName(n), [a, b])) == [(MixName(n), 2)];
    Calls2(s[0], s[1]);
  }

  lemma NoArguments(f: string)
    ensures Calls(Call(f, [])) == [(f, 0)]
  {
    assert ArgCalls([]) == [];
  }

  lemma CallsInMain(n: nat)
    ensures BlockCalls(MainFn(n).body) == [(ValueName(n), 0)]
  {
    var s := MainFn(n).body;
    NoArguments(ValueName(n));
    assert StmtCalls(s[1]) == [];
    Calls2(s[0], s[1]);
  }

  lemma PanicCall(n: nat)
    ensures BlockCalls([Do(Call("panic", [Num(n)]))]) == [("panic", 1)]
  {
    assert ArgCalls([Num(n)]) == Calls(Num(n)) + ArgCalls([Num(n)][1..]);
    OneCall(Do(Call("panic", [Num(n)])));
  }

  lemma CallsInTest(n: nat, expected: nat)
    ensures BlockCalls(TestStmts(n, expected)) == [(ValueName(n), 0), ("panic", 1)]
  {
    var s := TestStmts(n, expected);
    PanicCall(n);
    NoCallsNum(Ne, "got", expected);
    NoArguments(ValueName(n));
    assert BlockCalls([]) == [];
    assert StmtCalls(s[1]) == [] + [("panic", 1)] + [];
    Calls2(s[0], s[1]);
  }

  lemma CallsInValue(n: nat)
    ensures BlockCalls(ValueBody(n)) == if n % 4 == 3 then [(MixName(n), 2)] else []
  {
    if n % 4 == 0 {
      NoCallsInSum(n);
    } else if n % 4 == 1 {
      NoCallsInDistance(n);
    } else if n % 4 == 2 {
      NoCallsInLoop(n);
    } else {
      CallsInCall(n);
    }
  }

  lemma Definitions(prog: seq<Decl>, n: nat, tag: string, expected: nat)
    requires IsCompanion(prog, n, tag, expected)
    ensures OneDefinition(prog, ValueName(n), 0) && (n % 4 == 3 ==> OneDefinition(prog, MixName(n), 2))
  {
    GeneratedNames(n);
    var k := if n % 4 == 3 then 1 else 0;
    assert |MixName(n)| > 4 == |"main"|;
    DefinedAt(prog, ValueName(n), k);
    if n % 4 == 3 {
      DefinedAt(prog, MixName(n), 0);
    }
  }

  lemma BodyResolves(prog: seq<Decl>, n: nat, tag: string, expected: nat, body: seq<Stmt>)
    requires IsCompanion(prog, n, tag, expected)
    requires BlockCalls(body) in {[], [(ValueName(n), 0)], [(ValueName(n), 0), ("panic", 1)]}
          || (n % 4 == 3 && BlockCalls(body) == [(MixName(n), 2)])
    ensures forall call :: call in BlockCalls(body) ==> Resolves(prog, call)
  {
    Definitions(prog, n, tag, expected);
  }

  /** Every call in a companion goes to `panic` or to exactly one definition, of matching arity. */
  lemma CallsResolve(prog: seq<Decl>, n: nat, tag: string, expected: nat, i: nat)
    requires IsCompanion(prog, n, tag, expected) && i < |prog|
    ensures forall call :: call in BlockCalls(prog[i].body) ==> Resolves(prog, call)
  {
    var k := if n % 4 == 3 then 1 else 0;
    if i < k {
      NoCallsInMix();
    } else if i == k {
      CallsInValue(n);
    } else if i == k + 1 {
      CallsInMain(n);
    } else {
      CallsInTest(n, expected);
    }
    BodyResolves(prog, n, tag, expected, prog[i].body);
  }
}
