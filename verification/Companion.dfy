/** Every generated companion passes its own test: its text is tokenized, parsed and run. */
module Companion {
  import opened Strings
  import opened Tsv
  import opened Decimal
  import opened DemoName
  import opened SlaSyntax
  import opened SlaLexer
  import opened SlaParser
  import opened SlaEval
  import opened Rosetta
  import opened RosettaText
  import opened SourceNames
  import opened RosettaRuns

  // ----- names -----

  lemma ShortWords()
    ensures forall w :: w in KEYWORDS || w in SPECIAL ==> |w| <= 8
  {
  }

  lemma LongName(s: string)
    requires IsWord(s) && |s| > 8
    ensures IsName(s)
  {
    ShortWords();
  }

  lemma WordAround(a: string, n: nat, b: string)
    requires IsWord(a) && forall c :: c in b ==> IsWordChar(c)
    ensures IsWord(a + Padded(n) + b)
  {
    var s := a + Padded(n) + b;
    assert s[0] == a[0];
  }

  lemma GeneratedNames(n: nat)
    ensures IsName(ValueName(n)) && IsName(MixName(n))
    ensures ValueName(n) != MixName(n) && ValueName(n) != "panic" && MixName(n) != "panic" && ValueName(n) != "main"
  {
    assert IsWord("rosetta_");
    WordAround("rosetta_", n, "_value");
    WordAround("rosetta_", n, "_mix");
    LongName(ValueName(n));
    LongName(MixName(n));
    assert |ValueName(n)| == |MixName(n)| + 2;
  }

  lemma LocalNames1()
    ensures IsName("seed") && IsName("shifted") && IsName("scaled")
  {
  }

  lemma LocalNames2()
    ensures IsName("result") && IsName("base") && IsName("threshold")
  {
  }

  lemma LocalNames3()
    ensures IsName("total") && IsName("i") && IsName("product")
  {
  }

  lemma LocalNames4()
    ensures IsName("left") && IsName("right") && IsName("got")
  {
  }

  lemma LocalNames5()
    ensures IsName("main") && IsName("panic")
  {
  }

  // ----- the programs are well formed -----

  lemma WellNum(op: Op, x: string, k: nat)
    requires IsName(x)
    ensures WellFormed(Bin(op, Var(x), Num(k)))
  {
    assert WellFormed(Var(x)) && WellFormed(Num(k));
  }

  lemma WellVars(op: Op, x: string, y: string)
    requires IsName(x) && IsName(y)
    ensures WellFormed(Bin(op, Var(x), Var(y)))
  {
    assert WellFormed(Var(x)) && WellFormed(Var(y));
  }

  lemma WellSum(n: nat)
    ensures WellFormedBlock(SumStmts(n))
  {
    LocalNames1();
    LocalNames2();
    WellNum(Add, "seed", n);
    WellNum(Mul, "shifted", Factor(n));
    WellNum(Sub, "scaled", Offset(n));
    assert WellFormed(Num(Seed(n))) && WellFormed(Var("result"));
  }

  lemma WellBase(a: nat, b: nat, n: nat)
    ensures WellFormed(Bin(Add, Group(Bin(Mul, Num(a), Num(b))), Num(n)))
  {
    var product := Bin(Mul, Num(a), Num(b));
    assert WellFormed(Num(a)) && WellFormed(Num(b)) && WellFormed(Num(n));
    assert WellFormed(product);
    assert WellFormed(Group(product));
  }

  lemma WellBranches()
    ensures WellFormedStmt(Branches())
  {
    LocalNames2();
    WellVars(Sub, "base", "threshold");
    WellVars(Sub, "threshold", "base");
    WellVars(Gt, "base", "threshold");
    assert WellFormedStmt(Return(Bin(Sub, Var("base"), Var("threshold"))));
    assert WellFormedStmt(Return(Bin(Sub, Var("threshold"), Var("base"))));
  }

  lemma WellDistance(n: nat)
    ensures WellFormedBlock(DistanceStmts(n))
  {
    LocalNames2();
    WellBase(Seed(n), Factor(n), n);
    WellBranches();
    assert WellFormed(Num(Threshold(n)));
    assert DistanceStmts(n)[2] == Branches();
  }

  lemma WellLoop(n: nat)
    ensures WellFormedBlock(LoopStmts(n))
  {
    LocalNames2();
    LocalNames3();
    WellVars(Add, "total", "i");
    WellNum(Add, "total", Offset(n));
    assert WellFormedStmt(TotalStep()[0]);
    assert WellFormed(Num(0)) && WellFormed(Num(1)) && WellFormed(Num(Limit(n))) && WellFormed(Var("result"));
    assert WellFormedStmt(For("i", Num(1), Num(Limit(n)), TotalStep()));
  }

  lemma WellMix()
    ensures WellFormedBlock(MixStmts())
  {
    LocalNames2();
    LocalNames3();
    LocalNames4();
    WellVars(Mul, "left", "right");
    WellVars(Add, "product", "left");
    assert WellFormed(Var("right")) && WellFormed(Var("result"));
    assert WellFormed(Bin(Sub, Bin(Add, Var("product"), Var("left")), Var("right")));
  }

  lemma WellCall(n: nat)
    ensures WellFormedBlock(CallStmts(n))
  {
    LocalNames2();
    GeneratedNames(n);
    var s := CallStmts(n);
    assert WellFormed(Num(LeftArg(n))) && WellFormed(Num(RightArg(n)));
    assert WellFormedStmt(s[0]) && WellFormedStmt(s[1]);
  }

  lemma WellFunctions(n: nat)
    ensures WellFormedProgram(Functions(n))
  {
    GeneratedNames(n);
    LocalNames4();
    if n % 4 == 0 {
      WellSum(n);
    } else if n % 4 == 1 {
      WellDistance(n);
    } else if n % 4 == 2 {
      WellLoop(n);
    } else {
      WellMix();
      WellCall(n);
    }
  }

  lemma WellMain(n: nat)
    ensures WellFormedDecl(MainFn(n))
  {
    GeneratedNames(n);
    LocalNames2();
    LocalNames5();
  }

  lemma WellTest(n: nat, expected: nat)
    ensures WellFormedBlock(TestStmts(n, expected))
  {
    GeneratedNames(n);
    LocalNames4();
    WellComplaint(n);
    WellNum(Ne, "got", expected);
    var s := TestStmts(n, expected);
    assert WellFormed(Call(ValueName(n), []));
    assert WellFormedStmt(s[0]);
    assert WellFormedStmt(s[1]);
  }

  lemma WellComplaint(n: nat)
    ensures WellFormedBlock([Do(Call("panic", [Num(n)]))]) && WellFormedBlock([])
  {
    LocalNames5();
    assert WellFormed(Num(n));
    assert WellFormed(Call("panic", [Num(n)]));
  }

  lemma WellProgram(n: nat, name: string, expected: nat)
    requires QuoteSafe(TestTag(n, name))
    ensures WellFormedProgram(Program(n, name, expected))
  {
    WellFunctions(n);
    WellMain(n);
    WellTest(n, expected);
  }

  // ----- literals -----

  lemma FitsOne(d: Decl, max: nat)
    requires FitsBlock(d.body, max)
    ensures FitsProgram([d], max)
  {
  }

  lemma FitsTwo(d: Decl, e: Decl, max: nat)
    requires FitsBlock(d.body, max) && FitsBlock(e.body, max)
    ensures FitsProgram([d, e], max)
  {
  }

  lemma FitsFunctions(n: nat, max: nat)
    requires Highest(n) <= max
    ensures FitsProgram(Functions(n), max)
  {
    SmallNumbers(n);
    if n % 4 == 0 {
      MulGrows(Seed(n) + n, 1, Factor(n));
      MulGrows(Factor(n), 1, Seed(n) + n);
      ExpectedIsNatural(n);
      FitsSum(n, max);
      FitsOne(ValueFn(n, SumStmts(n)), max);
    } else if n % 4 == 1 {
      MulGrows(Seed(n), 1, Factor(n));
      MulGrows(Factor(n), 1, Seed(n));
      FitsDistance(n, max);
      FitsOne(ValueFn(n, DistanceStmts(n)), max);
    } else if n % 4 == 2 {
      SumRangeBounds(1, Limit(n));
      FitsLoop(n, max);
      FitsOne(ValueFn(n, LoopStmts(n)), max);
    } else {
      MulGrows(LeftArg(n), 1, RightArg(n));
      MulGrows(RightArg(n), 1, LeftArg(n));
      FitsMix(n, max);
      FitsTwo(Fn(MixName(n), ["left", "right"], MixStmts(), false), ValueFn(n, CallStmts(n)), max);
    }
  }

  lemma FitsNum(op: Op, x: string, k: nat, max: nat)
    ensures Fits(Bin(op, Var(x), Num(k)), max) <==> k <= max
  {
    assert Fits(Var(x), max) && (Fits(Num(k), max) <==> k <= max);
  }

  lemma FitsVars(op: Op, x: string, y: string, max: nat)
    ensures Fits(Bin(op, Var(x), Var(y)), max)
  {
    assert Fits(Var(x), max) && Fits(Var(y), max);
  }

  lemma FitsSum(n: nat, max: nat)
    requires Seed(n) <= max && n <= max && Factor(n) <= max && Offset(n) <= max
    ensures FitsBlock(SumStmts(n), max)
  {
    FitsNum(Add, "seed", n, max);
    FitsNum(Mul, "shifted", Factor(n), max);
    FitsNum(Sub, "scaled", Offset(n), max);
    assert Fits(Num(Seed(n)), max) && Fits(Var("result"), max);
  }

  lemma FitsBase(a: nat, b: nat, n: nat, max: nat)
    requires a <= max && b <= max && n <= max
    ensures Fits(Bin(Add, Group(Bin(Mul, Num(a), Num(b))), Num(n)), max)
  {
    var product := Bin(Mul, Num(a), Num(b));
    assert Fits(Num(a), max) && Fits(Num(b), max) && Fits(Num(n), max);
    assert Fits(product, max);
    assert Fits(Group(product), max);
  }

  lemma FitsBranches(max: nat)
    ensures FitsStmt(Branches(), max)
  {
    FitsVars(Sub, "base", "threshold", max);
    FitsVars(Sub, "threshold", "base", max);
    FitsVars(Gt, "base", "threshold", max);
    assert FitsStmt(Return(Bin(Sub, Var("base"), Var("threshold"))), max);
    assert FitsStmt(Return(Bin(Sub, Var("threshold"), Var("base"))), max);
  }

  lemma FitsDistance(n: nat, max: nat)
    requires Seed(n) <= max && n <= max && Factor(n) <= max && Threshold(n) <= max
    ensures FitsBlock(DistanceStmts(n), max)
  {
    FitsBase(Seed(n), Factor(n), n, max);
    FitsBranches(max);
    assert Fits(Num(Threshold(n)), max);
    assert DistanceStmts(n)[2] == Branches();
  }

  lemma FitsLoop(n: nat, max: nat)
    requires Limit(n) <= max && Offset(n) <= max && 1 <= max
    ensures FitsBlock(LoopStmts(n), max)
  {
    FitsVars(Add, "total", "i", max);
    FitsNum(Add, "total", Offset(n), max);
    assert FitsStmt(TotalStep()[0], max);
    assert Fits(Num(0), max) && Fits(Num(1), max) && Fits(Num(Limit(n)), max) && Fits(Var("result"), max);
    assert FitsStmt(For("i", Num(1), Num(Limit(n)), TotalStep()), max);
  }

  lemma FitsMix(n: nat, max: nat)
    requires LeftArg(n) <= max && RightArg(n) <= max
    ensures FitsBlock(MixStmts(), max) && FitsBlock(CallStmts(n), max)
  {
    FitsVars(Mul, "left", "right", max);
    FitsVars(Add, "product", "left", max);
    assert Fits(Var("right"), max) && Fits(Var("result"), max);
    assert Fits(Bin(Sub, Bin(Add, Var("product"), Var("left")), Var("right")), max);
    assert Fits(Num(LeftArg(n)), max) && Fits(Num(RightArg(n)), max);
    assert Fits(CallStmts(n)[0].value, max);
  }

  lemma FitsTest(n: nat, expected: nat, max: nat)
    ensures FitsBlock(TestStmts(n, expected), max) <==> expected <= max && n <= max
  {
    var s := TestStmts(n, expected);
    var panic := Do(Call("panic", [Num(n)]));
    assert Fits(Num(n), max) <==> n <= max;
    assert [Num(n)][0] in [Num(n)];
    assert FitsStmt(panic, max) <==> n <= max;
    assert [panic][0] in [panic];
    FitsNum(Ne, "got", expected, max);
    assert s[1] == If(Bin(Ne, Var("got"), Num(expected)), [panic], [], false);
    assert FitsStmt(s[1], max) <==> expected <= max && n <= max;
    assert s[1] in s && s[0] in s;
    assert FitsStmt(s[0], max);
  }

  /** Which widths the parser accepts the program for, at least as far as the run is concerned. */
  lemma FitsWhole(n: nat, name: string, expected: nat, max: nat)
    requires Expected(n) == expected
    ensures Peak(n) <= max ==> FitsProgram(Program(n, name, expected), max)
    ensures FitsProgram(Program(n, name, expected), max) ==> n <= max
  {
    var ds := Program(n, name, expected);
    var k := |Functions(n)|;
    var test := Test(TestTag(n, name), TestStmts(n, expected), true);
    assert ds[k + 1] == test && test in ds;
    FitsTest(n, expected, max);
    ExpectedIsNatural(n);
    if Peak(n) <= max {
      FitsFunctions(n, max);
      assert FitsBlock(MainFn(n).body, max);
    }
  }

  // ----- the run -----

  /** The declarations of a companion, as the parser hands them on. */
  ghost predicate IsCompanion(prog: seq<Decl>, n: nat, tag: string, expected: nat) {
    var k := if n % 4 == 3 then 1 else 0;
    && |prog| == k + 3
    && (n % 4 == 3 ==> prog[0] == Fn(MixName(n), ["left", "right"], MixStmts(), false))
    && prog[k] == Fn(ValueName(n), [], ValueBody(n), false)
    && prog[k + 1] == Fn("main", [], MainFn(n).body, false)
    && prog[k + 2] == Test(tag, TestStmts(n, expected), false)
  }

  function ValueBody(n: nat): seq<Stmt> {
    if n % 4 == 0 then SumStmts(n)
    else if n % 4 == 1 then BareBlock(DistanceStmts(n))
    else if n % 4 == 2 then BareBlock(LoopStmts(n))
    else CallStmts(n)
  }

  lemma BareNum(op: Op, x: string, k: nat)
    ensures Bare(Bin(op, Var(x), Num(k))) == Bin(op, Var(x), Num(k))
  {
    assert Bare(Var(x)) == Var(x) && Bare(Num(k)) == Num(k);
  }

  lemma BareSum(n: nat)
    ensures BareBlock(SumStmts(n)) == SumStmts(n)
  {
    var s := SumStmts(n);
    BareNum(Add, "seed", n);
    BareNum(Mul, "shifted", Factor(n));
    BareNum(Sub, "scaled", Offset(n));
    assert BareStmt(s[0]) == s[0] && BareStmt(s[4]) == s[4];
    BareOne(s[4]);
    BareCons(s[3], [s[4]]);
    BareCons(s[2], [s[3]] + [s[4]]);
    BareCons(s[1], [s[2]] + ([s[3]] + [s[4]]));
    BareCons(s[0], [s[1]] + ([s[2]] + ([s[3]] + [s[4]])));
    assert s == [s[0]] + ([s[1]] + ([s[2]] + ([s[3]] + [s[4]])));
  }

  lemma BareMix()
    ensures BareBlock(MixStmts()) == MixStmts()
  {
    var s := MixStmts();
    BareOne(s[2]);
    var sum := Bin(Add, Var("product"), Var("left"));
    assert Bare(Var("product")) == Var("product") && Bare(Var("left")) == Var("left");
    assert Bare(sum) == sum;
    assert Bare(Bin(Sub, sum, Var("right"))) == Bin(Sub, sum, Var("right"));
    assert s[1] == Let("result", Bin(Sub, sum, Var("right")));
    BareCons(s[1], [s[2]]);
    BareCons(s[0], [s[1]] + [s[2]]);
    assert s == [s[0]] + ([s[1]] + [s[2]]);
  }

  lemma BareArgs2(a: Expr, b: Expr)
    ensures BareAll([a, b]) == [Bare(a), Bare(b)]
  {
    assert [a, b][1..] == [b] && [b][1..] == [];
  }

  lemma BareCall(n: nat)
    ensures BareBlock(CallStmts(n)) == CallStmts(n)
  {
    var s := CallStmts(n);
    BareArgs2(Num(LeftArg(n)), Num(RightArg(n)));
    BareOne(s[1]);
    BareCons(s[0], [s[1]]);
    assert s == [s[0]] + [s[1]];
  }

  lemma BareMain(n: nat)
    ensures BareBlock(MainFn(n).body) == MainFn(n).body
  {
    var s := MainFn(n).body;
    BareOne(s[1]);
    BareCons(s[0], [s[1]]);
    assert s == [s[0]] + [s[1]];
  }

  lemma BareTest(n: nat, expected: nat)
    ensures BareBlock(TestStmts(n, expected)) == TestStmts(n, expected)
  {
    var s := TestStmts(n, expected);
    assert [Num(n)][1..] == [];
    assert BareAll([Num(n)]) == [Num(n)];
    var panic := Do(Call("panic", [Num(n)]));
    BareOne(panic);
    assert BareStmt(panic) == panic && BareBlock([panic]) == [panic];
    var guard := Bin(Ne, Var("got"), Num(expected));
    assert Bare(guard) == guard;
    assert s[1] == If(guard, [panic], [], false);
    assert BareStmt(s[1]) == s[1];
    BareOne(s[1]);
    BareCons(s[0], [s[1]]);
    assert s == [s[0]] + [s[1]];
  }

  lemma BareDecls(a: Decl, ds: seq<Decl>)
    ensures BareProgram([a] + ds) == [BareDecl(a)] + BareProgram(ds)
  {
    assert ([a] + ds)[1..] == ds;
  }

  lemma BareTail(n: nat, name: string, expected: nat)
    ensures var test := Test(TestTag(n, name), TestStmts(n, expected), true);
      BareProgram([MainFn(n), test]) == [Fn("main", [], MainFn(n).body, false), Test(TestTag(n, name), TestStmts(n, expected), false)]
  {
    var test := Test(TestTag(n, name), TestStmts(n, expected), true);
    BareMain(n);
    BareTest(n, expected);
    BareDecls(test, []);
    assert [test] + [] == [test];
    BareDecls(MainFn(n), [test]);
    assert [MainFn(n)] + [test] == [MainFn(n), test];
  }

  lemma ParsedProgram(n: nat, name: string, expected: nat)
    ensures IsCompanion(BareProgram(Program(n, name, expected)), n, TestTag(n, name), expected)
  {
    var tail := [MainFn(n), Test(TestTag(n, name), TestStmts(n, expected), true)];
    BareTail(n, name, expected);
    if n % 4 == 3 {
      BareMix();
      BareCall(n);
      var mix, value := Functions(n)[0], Functions(n)[1];
      BareDecls(value, tail);
      BareDecls(mix, [value] + tail);
      assert Program(n, name, expected) == [mix] + ([value] + tail);
    } else {
      if n % 4 == 0 {
        BareSum(n);
      }
      BareDecls(Functions(n)[0], tail);
      assert Program(n, name, expected) == [Functions(n)[0]] + tail;
    }
  }

  lemma FindFns(prog: seq<Decl>, n: nat, tag: string, expected: nat)
    requires IsCompanion(prog, n, tag, expected)
    ensures FindFn(prog, ValueName(n)) == if n % 4 == 3 then 1 else 0
    ensures n % 4 == 3 ==> FindFn(prog, MixName(n)) == 0
  {
    GeneratedNames(n);
    if n % 4 == 3 {
      assert prog[1..][0] == prog[1];
    }
  }

  lemma EvalArgs(prog: seq<Decl>, a: nat, b: nat, env: Env, depth: nat, max: nat)
    ensures EvalAll(prog, [Num(a), Num(b)], env, depth, max)
         == if a <= max && b <= max then Ints([a as int, b as int]) else StuckIn(Overflow)
  {
    assert [Num(a), Num(b)][1..] == [Num(b)] && [Num(b)][1..] == [];
    assert EvalAll(prog, [Num(b)], env, depth, max) == if b <= max then Ints([b as int]) else StuckIn(Overflow);
  }

  lemma RunCallBody(prog: seq<Decl>, n: nat, tag: string, expected: nat, depth: nat, max: nat)
    requires IsCompanion(prog, n, tag, expected) && n % 4 == 3 && depth >= 1
    ensures Run(prog, CallStmts(n), [], depth, max) == Within(Highest(n) <= max, Expected(n))
  {
    SmallNumbers(n);
    var a, b := LeftArg(n), RightArg(n);
    MulGrows(a, 1, b);
    MulGrows(b, 1, a);
    FindFns(prog, n, tag, expected);
    GeneratedNames(n);
    var call := CallStmts(n)[0].value;
    EvalArgs(prog, a, b, [], depth, max);
    assert Bind(["left", "right"], [a as int, b as int]) == [("left", a as int), ("right", b as int)];
    RunMix(prog, a, b, depth - 1, max);
    ExpectedIsNatural(n);
    assert Eval(prog, call, [], depth, max) == if Highest(n) <= max then Yield(Expected(n)) else Stuck(Overflow);
    assert CallStmts(n) == [Let("result", call)] + [Return(Var("result"))];
    RunLet(prog, "result", call, [Return(Var("result"))], [], depth, max);
    Extend([], "result", Expected(n));
    RosettaRuns.ReturnVar(prog, "result", Expected(n), [] + [("result", Expected(n))], depth, max);
  }

  /** The value function returns what Python computed, or overflows: the latter exactly when the width is too small. */
  lemma RunValue(prog: seq<Decl>, n: nat, tag: string, expected: nat, depth: nat, max: nat)
    requires IsCompanion(prog, n, tag, expected) && depth >= 1
    ensures Run(prog, ValueBody(n), [], depth, max) == Within(Highest(n) <= max, Expected(n))
  {
    if n % 4 == 0 {
      RunSum(prog, n, depth, max);
    } else if n % 4 == 1 {
      RunDistance(prog, n, depth, max);
    } else if n % 4 == 2 {
      RunLoopBody(prog, n, depth, max);
    } else {
      RunCallBody(prog, n, tag, expected, depth, max);
    }
  }

  lemma CallValue(prog: seq<Decl>, n: nat, tag: string, expected: nat, env: Env, max: nat)
    requires IsCompanion(prog, n, tag, expected)
    ensures Eval(prog, Call(ValueName(n), []), env, |prog|, max)
         == if Highest(n) <= max then Yield(Expected(n)) else Stuck(Overflow)
  {
    FindFns(prog, n, tag, expected);
    GeneratedNames(n);
    RunValue(prog, n, tag, expected, |prog| - 1, max);
    assert Bind([], []) == [];
  }

  lemma RunTestBody(prog: seq<Decl>, n: nat, tag: string, expected: nat, max: nat)
    requires IsCompanion(prog, n, tag, expected) && Expected(n) == expected
    ensures Run(prog, TestStmts(n, expected), [], |prog|, max)
         == if Highest(n) <= max then Next([("got", expected as int)]) else Broken(Overflow)
  {
    var s := TestStmts(n, expected);
    CallValue(prog, n, tag, expected, [], max);
    assert s == [s[0]] + [s[1]];
    RunLet(prog, "got", Call(ValueName(n), []), [s[1]], [], |prog|, max);
    if Highest(n) <= max {
      ExpectedIsNatural(n);
      var env: Env := [("got", expected as int)];
      assert [] + [("got", expected as int)] == env;
      Extend([], "got", expected);
      RunOne(prog, s[1], [], env, |prog|, max);
      assert [s[1]] + [] == [s[1]];
      assert Eval(prog, s[1].cond, env, |prog|, max) == Yield(0);
      assert env[..1] == env;
      assert Step(prog, s[1], env, |prog|, max) == Next(env);
    }
  }

  lemma {:induction false} SkipFns(prog: seq<Decl>, ds: seq<Decl>, k: nat, max: nat)
    requires k <= |ds| && forall i :: 0 <= i < k ==> ds[i].Fn?
    ensures RunTests(prog, ds, max) == RunTests(prog, ds[k..], max)
  {
    if k > 0 {
      SkipFns(prog, ds[1..], k - 1, max);
      assert ds[1..][k - 1..] == ds[k..];
    } else {
      assert ds[0..] == ds;
    }
  }

  lemma RunCompanion(prog: seq<Decl>, n: nat, tag: string, expected: nat, max: nat)
    requires IsCompanion(prog, n, tag, expected) && Expected(n) == expected
    ensures RunTests(prog, prog, max) == if Highest(n) <= max then Passed else Faulty(Overflow)
  {
    var k := |prog| - 1;
    SkipFns(prog, prog, k, max);
    assert prog[k..][0] == prog[k] && prog[k..][1..] == [];
    RunTestBody(prog, n, tag, expected, max);
  }

  // ----- what the compiler makes of a text -----

  datatype Verdict = NoNumber | Rejected(error: SyntaxError) | Ran(outcome: Outcome)

  /** What `sa sla test` makes of a text, for integers up to `max`. */
  function Check(text: string, max: nat): Verdict {
    match ParseProgram(Lex(text), max)
    case Error(e) => Rejected(e)
    case Done(prog, _) => Ran(RunTests(prog, prog, max))
  }

  // ----- tokens of the text -----

  /** The name can stand in the comment and in the test's label. */
  predicate Carries(name: string) {
    CommentSafe(NameComment(name)) && QuoteSafe(name)
  }

  lemma HeadParts(first: string, second: string, k: string)
    ensures "//" + first + "\n" + ("//" + second + "\n") + "\n" + k == "//" + (first + ("\n" + ("//" + (second + ("\n" + ("\n" + k))))))
  {
  }

  lemma OriginIsLine()
    ensures '\n' !in ORIGIN_COMMENT
  {
  }

  /** The comments leave no token, or they leave one that no program starts with. */
  lemma HeadEffect(name: string, k: string)
    requires NoTest(Lex(k))
    ensures CommentSafe(NameComment(name)) ==> Lex(HeadText(name) + k) == Lex(k)
    ensures !CommentSafe(NameComment(name)) ==> Stranger(Lex(HeadText(name) + k))
  {
    var tail := "//" + (ORIGIN_COMMENT + ("\n" + ("\n" + k)));
    HeadParts(TitleComment(name), ORIGIN_COMMENT, k);
    OriginIsLine();
    LexCommentLine(ORIGIN_COMMENT, "\n" + k);
    LexWhite('\n', k);
    NameCommentTitled(name);
    TitlePrefix(name);
    TitleCommentEffect(" Sla companion for SA rosetta demo ", NameComment(name), tail);
  }

  lemma TitlePrefix(name: string)
    ensures TitleComment(name) == " Sla companion for SA rosetta demo " + NameComment(name)
    ensures '\n' !in " Sla companion for SA rosetta demo "
  {
    JoinParts(" Sla companion for SA rosetta demo ", Title(name), ".");
    PlainOpening();
  }

  lemma JoinParts(a: string, b: string, c: string)
    ensures a + b + c == a + (b + c)
  {
  }

  lemma PlainOpening()
    ensures '\n' !in " Sla companion for SA rosetta demo "
  {
  }

  lemma OpenTokens(n: nat, name: string, expected: nat)
    ensures var ts := ProgramTokens(Program(n, name, expected), []); ts != [] && ts[0] == Word("fn")
  {
    var fs := Functions(n);
    assert Program(n, name, expected)[0] == fs[0];
  }

  lemma TextBeforeTest(n: nat, rest: string)
    ensures PrintProgram(Functions(n) + [MainFn(n)], "\n" + rest) == BodyText(n) + ("\n" + (MainText(n) + ("\n" + rest)))
  {
    MainDeclText(n);
    ProgramAppend(Functions(n), [MainFn(n)], "\n" + rest);
    FunctionsText(n, "\n" + (MainText(n) + ("\n" + rest)));
    assert PrintProgram([MainFn(n)], "\n" + rest) == MainText(n) + ("\n" + rest);
  }

  lemma WellBeforeTest(n: nat)
    ensures WellFormedProgram(Functions(n) + [MainFn(n)])
  {
    WellFunctions(n);
    WellMain(n);
  }

  /** Up to the test, the text lexes as the program does, whatever the name. */
  lemma TokensBeforeTest(n: nat, name: string)
    ensures Lex(BodyText(n) + ("\n" + (MainText(n) + ("\n" + TestText(n, name)))))
         == ProgramTokens(Functions(n) + [MainFn(n)], Lex(TestText(n, name)))
  {
    var rest := TestText(n, name);
    TextBeforeTest(n, rest);
    WellBeforeTest(n);
    LexProgram(Functions(n) + [MainFn(n)], "\n" + rest);
    LexWhite('\n', rest);
  }

  /** The text of the test after its label. */
  function AfterLabel(n: nat): string {
    "() {\n" + ("    let got = " + ValueName(n) + "();\n") + ("    if got != " + PrintInt(Expected(n)) + " {\n")
    + ("        panic(" + Print(n) + ");\n") + "    };\n" + "};\n"
  }

  lemma TestTextOpens(n: nat, name: string)
    ensures TestText(n, name) == "@" + ("test" + (" " + (("\"" + (TestTag(n, name) + "\"")) + AfterLabel(n))))
  {
    SplitTest(TestTag(n, name), "    let got = " + ValueName(n) + "();\n", "    if got != " + PrintInt(Expected(n)) + " {\n",
              "        panic(" + Print(n) + ");\n");
  }

  lemma SplitTest(tag: string, a: string, b: string, c: string)
    ensures "@test \"" + tag + "\"() {\n" + a + b + c + "    };\n" + "};\n"
         == "@" + ("test" + (" " + (("\"" + (tag + "\"")) + ("() {\n" + a + b + c + "    };\n" + "};\n"))))
  {
    var rest := a + b + c + "    };\n" + "};\n";
    assert "() {\n" + a + b + c + "    };\n" + "};\n" == "() {\n" + rest;
    assert "@test \"" + tag + "\"() {\n" + a + b + c + "    };\n" + "};\n" == "@test \"" + tag + "\"() {\n" + rest;
    assert "@" + ("test" + (" " + (("\"" + (tag + "\"")) + ("() {\n" + rest)))) == "@test \"" + tag + "\"() {\n" + rest;
  }

  /** The label of the test is read as one literal exactly when the name is quote-safe. */
  lemma LabelEffect(n: nat, name: string, expected: nat)
    requires Expected(n) == expected && !QuoteSafe(name)
    ensures Lex(TestText(n, name)) != DeclTokens(Test(TestTag(n, name), TestStmts(n, expected), true), [])
  {
    TagIsSafe(n, name);
    TestOpens(n, name);
    UnsafeLiteral(TestTag(n, name), AfterLabel(n));
    var lit := "\"" + (TestTag(n, name) + "\"");
    var ts := Lex(lit + AfterLabel(n));
    var all := [Sym("@")] + ([Word("test")] + ts);
    var want := DeclTokens(Test(TestTag(n, name), TestStmts(n, expected), true), []);
    assert want[2] == Str(lit);
    assert |all| > 2 ==> all[2] == ts[0];
  }

  lemma TestOpens(n: nat, name: string)
    ensures Lex(TestText(n, name))
         == [Sym("@")] + ([Word("test")] + Lex(("\"" + (TestTag(n, name) + "\"")) + AfterLabel(n)))
  {
    var text := ("\"" + (TestTag(n, name) + "\"")) + AfterLabel(n);
    TestTextOpens(n, name);
    LexMark('@', "test" + (" " + text));
    LexSpacedWord("test", text);
  }

  /** The test has its tokens exactly when the name is quote-safe. */
  lemma TestEffect(n: nat, name: string, expected: nat)
    requires Expected(n) == expected
    ensures Lex(TestText(n, name)) == DeclTokens(Test(TestTag(n, name), TestStmts(n, expected), true), []) <==> QuoteSafe(name)
  {
    if QuoteSafe(name) {
      TagIsSafe(n, name);
      WellTest(n, expected);
      TestLayout(n, name, expected);
      LexDecl(Test(TestTag(n, name), TestStmts(n, expected), true), "");
      assert TestText(n, name) + "" == TestText(n, name);
    } else {
      LabelEffect(n, name, expected);
    }
  }

  lemma BelowEffect(n: nat, name: string, expected: nat)
    requires Expected(n) == expected
    ensures (Lex(BodyText(n) + ("\n" + (MainText(n) + ("\n" + TestText(n, name)))))
             == ProgramTokens(Program(n, name, expected), [])) <==> QuoteSafe(name)
  {
    var test := Test(TestTag(n, name), TestStmts(n, expected), true);
    var before := Functions(n) + [MainFn(n)];
    assert Program(n, name, expected) == before + [test];
    ProgramTokensAppend(before, [test], []);
    TokensBeforeTest(n, name);
    TestTokensAre(test);
    TestEffect(n, name, expected);
    ProgramTokensRest(before, Lex(TestText(n, name)));
    ProgramTokensRest(before, DeclTokens(test, []));
    if !QuoteSafe(name) {
      SameTail(ProgramTokens(before, []), Lex(TestText(n, name)), DeclTokens(test, []));
    }
  }

  /** The text of a companion has the tokens of its program, and nothing else, exactly when the name can be carried. */
  lemma SourceTokens(name: string, n: nat)
    requires DemoNumber(name) == Some(n)
    ensures Expected(n) >= 0
    ensures SlaSource(name).Some?
    ensures Lex(SlaSource(name).value) == ProgramTokens(Program(n, name, Expected(n)), []) <==> Carries(name)
  {
    ExpectedIsNatural(n);
    BelowOpens(n, name);
    HeadEffect(name, BodyText(n) + ("\n" + (MainText(n) + ("\n" + TestText(n, name)))));
    OpenTokens(n, name, Expected(n));
    BelowEffect(n, name, Expected(n));
  }

  lemma BelowOpens(n: nat, name: string)
    ensures NoTest(Lex(BodyText(n) + ("\n" + (MainText(n) + ("\n" + TestText(n, name))))))
  {
    TokensBeforeTest(n, name);
    var before := Functions(n) + [MainFn(n)];
    assert before[0] == Functions(n)[0];
  }

  lemma TestTokensAre(test: Decl)
    ensures ProgramTokens([test], []) == DeclTokens(test, [])
  {
    assert [test][1..] == [];
  }

  lemma SameTail(p: seq<Token>, a: seq<Token>, b: seq<Token>)
    requires a != b
    ensures p + a != p + b
  {
    assert (p + a)[|p|..] == a;
    assert (p + b)[|p|..] == b;
  }

  lemma ParsedSource(name: string, n: nat, max: nat)
    requires DemoNumber(name) == Some(n) && Carries(name)
    ensures Expected(n) >= 0 && SlaSource(name).Some?
    ensures ParseProgram(Lex(SlaSource(name).value), max)
         == if FitsProgram(Program(n, name, Expected(n)), max) then Done(BareProgram(Program(n, name, Expected(n))), [])
            else Error(InvalidCharacter)
  {
    SourceTokens(name, n);
    TagIsSafe(n, name);
    WellProgram(n, name, Expected(n));
    ParseProgramTokens(Program(n, name, Expected(n)), max);
  }

  // ----- names that cannot be carried -----

  lemma StrangerRejected(ts: seq<Token>, max: nat)
    requires Stranger(ts)
    ensures ParseProgram(ts, max).Error?
  {
    assert ts[0] == Sym("@") ==> !At(ts[1..], Word("test"));
  }

  /** A name that leaves the comment is rejected, whatever it leaves there. */
  lemma CommentRejected(name: string, n: nat, max: nat)
    requires DemoNumber(name) == Some(n) && !CommentSafe(NameComment(name))
    ensures SlaSource(name).Some? && Check(SlaSource(name).value, max).Rejected?
  {
    BelowOpens(n, name);
    HeadEffect(name, BodyText(n) + ("\n" + (MainText(n) + ("\n" + TestText(n, name)))));
    StrangerRejected(Lex(SlaSource(name).value), max);
  }

  lemma NoQuoteAfter(n: nat)
    ensures '"' !in AfterLabel(n)
  {
    GeneratedNames(n);
    NoQuoteInNumber(Expected(n));
    NoQuoteInNumber(n);
    assert '"' !in ValueName(n);
    assert '"' !in "    let got = " + ValueName(n) + "();\n";
    assert '"' !in "    if got != " + PrintInt(Expected(n)) + " {\n";
    assert '"' !in "        panic(" + Print(n) + ");\n";
  }

  lemma NoQuoteInNumber(i: int)
    ensures '"' !in PrintInt(i)
    ensures i >= 0 ==> '"' !in Print(i)
  {
  }

  lemma LexLiteral(s: string, j: nat)
    requires s != "" && s[0] == '"' && j == 1 + StringLen(s[1..]) && j <= |s|
    ensures Lex(s) == [Str(s[..j])] + Lex(s[j..])
  {
  }

  lemma LooseLabel(tag: string, q: string, rest: string)
    requires AfterQuote(tag) == Some(q)
    ensures var ts := Lex(("\"" + (tag + "\"")) + rest);
      |ts| > 0 && ts[0].Str? && ts[1..] == Lex(q + ("\"" + rest))
  {
    var s := ("\"" + (tag + "\"")) + rest;
    var k := "\"" + rest;
    LooseQuoteEnds(tag, k);
    var p := tag[..|tag| - |q|];
    assert tag == p + q;
    Assoc("\"", tag + "\"", rest);
    Assoc(tag, "\"", rest);
    Assoc(p, q, k);
    Assoc("\"", p, q + k);
    assert s == ("\"" + p) + (q + k);
    LooseAt("\"" + p, q + k, s);
    assert s[1..] == tag + k;
    LexLiteral(s, 1 + |p|);
  }

  lemma LooseAt(a: string, b: string, s: string)
    requires s == a + b
    ensures s[|a|..] == b
  {
  }

  lemma HiddenLabel(tag: string, rest: string)
    requires AfterQuote(tag) == None && !QuoteSafe(tag) && '"' !in rest
    ensures Lex(("\"" + (tag + "\"")) + rest) == [Bad]
  {
    var s := ("\"" + (tag + "\"")) + rest;
    assert s[0] == '"' && s[1..] == tag + (['"'] + rest);
    HiddenQuote(tag, rest);
  }

  /** How the tokens of the label start when the name is not quote-safe. */
  lemma BrokenLabel(n: nat, name: string)
    requires !QuoteSafe(name)
    ensures var ts := Lex(("\"" + (TestTag(n, name) + "\"")) + AfterLabel(n));
      match AfterQuote(name)
      case None => ts == [Bad]
      case Some(q) => |ts| > 0 && ts[0].Str? && ts[1..] == Lex(q + ("\"" + AfterLabel(n)))
  {
    TagIsSafe(n, name);
    TagQuote(n, name);
    if AfterQuote(name).Some? {
      LooseLabel(TestTag(n, name), AfterQuote(name).value, AfterLabel(n));
    } else {
      NoQuoteAfter(n);
      HiddenLabel(TestTag(n, name), AfterLabel(n));
    }
  }

  lemma LabelRejected(tokens: seq<Token>, max: nat)
    requires tokens == [Bad] || (|tokens| > 0 && tokens[0].Str? && !At(tokens[1..], Sym("(")))
    ensures ParseProgram([Sym("@")] + ([Word("test")] + tokens), max).Error?
  {
    var ts := [Sym("@")] + ([Word("test")] + tokens);
    assert ts[1..] == [Word("test")] + tokens && ts[2..] == tokens;
  }

  lemma TestRejected(name: string, n: nat, max: nat)
    requires !QuoteSafe(name)
    requires AfterQuote(name).None? || !At(Lex(AfterQuote(name).value + ("\"" + AfterLabel(n))), Sym("("))
    ensures ParseProgram(Lex(TestText(n, name)), max).Error? && !At(Lex(TestText(n, name)), Sym(";"))
  {
    TestOpens(n, name);
    BrokenLabel(n, name);
    LabelRejected(Lex(("\"" + (TestTag(n, name) + "\"")) + AfterLabel(n)), max);
  }

  lemma BelowRejected(name: string, n: nat, max: nat)
    requires ParseProgram(Lex(TestText(n, name)), max).Error? && !At(Lex(TestText(n, name)), Sym(";"))
    ensures ParseProgram(Lex(BodyText(n) + ("\n" + (MainText(n) + ("\n" + TestText(n, name))))), max).Error?
  {
    TokensBeforeTest(n, name);
    WellBeforeTest(n);
    ParseProgramBefore(Functions(n) + [MainFn(n)], Lex(TestText(n, name)), max);
  }

  /** A name that stays in the comment, before a test that cannot be parsed. */
  lemma TextRejected(name: string, n: nat, max: nat)
    requires DemoNumber(name) == Some(n) && CommentSafe(NameComment(name))
    requires ParseProgram(Lex(BodyText(n) + ("\n" + (MainText(n) + ("\n" + TestText(n, name))))), max).Error?
    ensures SlaSource(name).Some? && Check(SlaSource(name).value, max).Rejected?
  {
    BelowOpens(n, name);
    HeadEffect(name, BodyText(n) + ("\n" + (MainText(n) + ("\n" + TestText(n, name)))));
  }

  /** A name that is not quote-safe is rejected, too, unless a parenthesis opens after its first loose quote. */
  lemma QuoteRejected(name: string, n: nat, max: nat)
    requires DemoNumber(name) == Some(n) && !QuoteSafe(name)
    requires AfterQuote(name).None? || !At(Lex(AfterQuote(name).value + ("\"" + AfterLabel(n))), Sym("("))
    ensures SlaSource(name).Some? && Check(SlaSource(name).value, max).Rejected?
  {
    if CommentSafe(NameComment(name)) {
      TestRejected(name, n, max);
      BelowRejected(name, n, max);
      TextRejected(name, n, max);
    } else {
      CommentRejected(name, n, max);
    }
  }

  lemma QuotedName()
    ensures DemoNumber("1_a\"b") == Some(1) && AfterQuote("1_a\"b") == Some("b") && !QuoteSafe("1_a\"b")
  {
    assert "1_a\"b" == Zeros(0) + Print(1) + "_" + "a\"b";
    DemoNumberOfPrinted(0, 1, "a\"b");
    PlainBefore("1_a", "\"b");
    PlainPrefix("1_a", "\"b");
    assert "1_a" + "\"b" == "1_a\"b" && "\"b"[1..] == "b";
  }

  /** A quote before a letter: one name of many whose companion is rejected. */
  lemma QuotedNameFails(max: nat)
    ensures SlaSource("1_a\"b").Some? && Check(SlaSource("1_a\"b").value, max).Rejected?
  {
    QuotedName();
    LexWord("b", "\"" + AfterLabel(1));
    QuoteRejected("1_a\"b", 1, max);
  }

  // ----- the theorem -----

  lemma CarriedPasses(name: string, n: nat, max: nat)
    requires DemoNumber(name) == Some(n) && Carries(name)
    ensures SlaSource(name).Some?
    ensures Check(SlaSource(name).value, max) == Ran(Passed) <==> Peak(n) <= max
    ensures Check(SlaSource(name).value, max) in {Ran(Passed), Ran(Faulty(Overflow)), Rejected(InvalidCharacter)}
  {
    ParsedSource(name, n, max);
    var expected := Expected(n);
    FitsWhole(n, name, expected, max);
    ParsedProgram(n, name, expected);
    RunCompanion(BareProgram(Program(n, name, expected)), n, TestTag(n, name), expected, max);
  }

  /** For every catalogue number, every width and every quote-safe name: the companion passes its own test exactly when
      the name stays in its comment and the highest integer of the program fits. It never panics: a narrower width is
      an out-of-range literal or an overflow, and a name that leaves the comment is rejected. */
  lemma CompanionPasses(name: string, n: nat, max: nat)
    requires DemoNumber(name) == Some(n) && QuoteSafe(name)
    ensures SlaSource(name).Some?
    ensures Check(SlaSource(name).value, max) == Ran(Passed) <==> CommentSafe(NameComment(name)) && Peak(n) <= max
    ensures Check(SlaSource(name).value, max).Rejected? || Check(SlaSource(name).value, max) in {Ran(Passed), Ran(Faulty(Overflow))}
  {
    if CommentSafe(NameComment(name)) {
      CarriedPasses(name, n, max);
    } else {
      CommentRejected(name, n, max);
    }
  }

  /** In the compiler's 64-bit integers. */
  lemma CompanionPasses64(name: string, n: nat)
    requires DemoNumber(name) == Some(n) && QuoteSafe(name)
    requires n <= 922337203685477561
    ensures SlaSource(name).Some?
    ensures Check(SlaSource(name).value, MAX_I64) == Ran(Passed) <==> CommentSafe(NameComment(name))
  {
    PeakBound(n);
    CompanionPasses(name, n, MAX_I64);
  }

  /** In 32-bit integers. */
  lemma CompanionPasses32(name: string, n: nat)
    requires DemoNumber(name) == Some(n) && QuoteSafe(name)
    requires n <= 214748345
    ensures SlaSource(name).Some?
    ensures Check(SlaSource(name).value, 0x7FFF_FFFF) == Ran(Passed) <==> CommentSafe(NameComment(name))
  {
    PeakBound(n);
    CompanionPasses(name, n, 0x7FFF_FFFF);
  }

  lemma {:induction false} OrdinaryQuotes(s: string)
    requires '"' !in s && '\\' !in s
    ensures QuoteSafe(s)
  {
    if s != "" {
      assert s[0] in s && forall c :: c in s[1..] ==> c in s;
      OrdinaryQuotes(s[1..]);
    }
  }

  lemma {:induction false} TitleCaseNoBreak(s: string, inWord: bool)
    requires '\n' !in s
    ensures '\n' !in TitleCase(s, inWord)
  {
    if s != "" {
      assert s[0] in s && forall c :: c in s[1..] ==> c in s;
      TitleCaseNoBreak(s[1..], IsLetter(s[0]));
    }
  }

  lemma {:induction false} SpacedNoBreak(s: string)
    requires '\n' !in s
    ensures '\n' !in Replace(s, "_", " ")
  {
    if s != "" {
      assert s[0] in s && forall c :: c in s[1..] ==> c in s;
      SpacedNoBreak(s[1..]);
    }
  }

  /** A name without line feeds, quotes and backslashes can always be carried. */
  lemma OrdinaryName(name: string)
    requires '\n' !in name && '"' !in name && '\\' !in name
    ensures Carries(name)
  {
    OrdinaryQuotes(name);
    var rest := AfterUnderscore(name);
    assert forall c :: c in rest ==> c in name;
    SpacedNoBreak(rest);
    TitleCaseNoBreak(Replace(rest, "_", " "), false);
    var t := NameComment(name);
    assert '\n' !in t;
    assert LineLen(t) == |t|;
  }

  // ----- names of the generated functions -----

  lemma NumberOf(n: nat)
    ensures ValueName(n)[8..|ValueName(n)| - 6] == Padded(n)
    ensures MixName(n)[8..|MixName(n)| - 4] == Padded(n)
  {
  }

  /** Programs for distinct numbers share no `rosetta_` name. */
  lemma DisjointNames(n: nat, m: nat)
    requires n != m
    ensures ValueName(n) != ValueName(m) && MixName(n) != MixName(m) && ValueName(n) != MixName(m)
  {
    NumberOf(n);
    NumberOf(m);
    if ValueName(n) == ValueName(m) {
      PaddedInjective(n, m);
    }
    if MixName(n) == MixName(m) {
      PaddedInjective(n, m);
    }
    assert ValueName(n)[|ValueName(n)| - 1] == 'e' && MixName(m)[|MixName(m)| - 1] == 'x';
  }

  /** `main` returns what Python computed, too. */
  lemma MainReturns(prog: seq<Decl>, n: nat, tag: string, expected: nat, max: nat)
    requires IsCompanion(prog, n, tag, expected)
    ensures Run(prog, MainFn(n).body, [], |prog|, max) == Within(Highest(n) <= max, Expected(n))
  {
    var s := MainFn(n).body;
    CallValue(prog, n, tag, expected, [], max);
    assert s == [Let("result", Call(ValueName(n), []))] + [Return(Var("result"))];
    RunLet(prog, "result", Call(ValueName(n), []), [Return(Var("result"))], [], |prog|, max);
    Extend([], "result", Expected(n));
    RosettaRuns.ReturnVar(prog, "result", Expected(n), [] + [("result", Expected(n))], |prog|, max);
  }
}
