/** Each generated text, line by line, is the layout of its program. */
module RosettaText {
  import opened Strings
  import opened Decimal
  import opened SlaSyntax
  import opened Rosetta
  import opened RosettaLayout

  lemma NumLet(head: string, x: string, n: nat)
    requires head == "    let " + x + " = "
    ensures IsLine(Let(x, Num(n)), 4, head + Print(n) + ";\n")
  {
    NumText(n);
    LetLine(head, x, Num(n), Print(n));
  }

  lemma BinWords(head: string, y: string, op: string, n: string)
    ensures head + (y + " " + op + " " + n) == head + y + " " + op + " " + n
  {
    Assoc(head, y + " " + op + " ", n);
    Assoc(head, y + " " + op, " ");
    Assoc(head, y + " ", op);
    Assoc(head, y, " ");
  }

  /** A `let` of a variable, an operator and a number. */
  lemma BinLet(line: string, x: string, y: string, op: Op, n: nat)
    requires line == "    let " + x + " = " + y + " " + op.Text() + " "
    ensures IsLine(Let(x, Bin(op, Var(y), Num(n))), 4, line + Print(n) + ";\n")
  {
    VarText(y);
    NumText(n);
    BinText(op, Var(y), y, Num(n), Print(n));
    var head := "    let " + x + " = ";
    LetLine(head, x, Bin(op, Var(y), Num(n)), y + " " + op.Text() + " " + Print(n));
    BinWords(head, y, op.Text(), Print(n));
  }

  lemma ReturnVar(line: string, x: string)
    requires line == "    return " + x + ";\n"
    ensures IsLine(Return(Var(x)), 4, line)
  {
    Indents();
    VarText(x);
    ReturnLine("    return ", 4, Var(x), x);
  }

  lemma ReturnResult()
    ensures IsLine(Return(Var("result")), 4, "    return result;\n")
  {
    ReturnVar("    return result;\n", "result");
  }

  lemma ReturnBin(line: string, op: Op, x: string, y: string)
    requires line == "        return " + (x + " " + op.Text() + " " + y) + ";\n"
    ensures IsLine(Return(Bin(op, Var(x), Var(y))), 8, line)
  {
    Indents();
    VarText(x);
    VarText(y);
    BinText(op, Var(x), x, Var(y), y);
    ReturnLine("        return ", 8, Bin(op, Var(x), Var(y)), x + " " + op.Text() + " " + y);
  }

  // ----- n % 4 == 0 -----

  lemma SumLines(n: nat)
    ensures IsLine(Let("seed", Num(Seed(n))), 4, "    let seed = " + Print(Seed(n)) + ";\n")
    ensures IsLine(Let("shifted", Bin(Add, Var("seed"), Num(n))), 4, "    let shifted = seed + " + Print(n) + ";\n")
  {
    NumLet("    let seed = ", "seed", Seed(n));
    BinLet("    let shifted = seed + ", "shifted", "seed", Add, n);
  }

  lemma ScaledHead()
    ensures "    let scaled = shifted * " == "    let " + "scaled" + " = " + "shifted" + " " + "*" + " "
  {
  }

  lemma ScaledLine(n: nat)
    ensures IsLine(Let("scaled", Bin(Mul, Var("shifted"), Num(Factor(n)))), 4, "    let scaled = shifted * " + Print(Factor(n)) + ";\n")
  {
    ScaledHead();
    BinLet("    let scaled = shifted * ", "scaled", "shifted", Mul, Factor(n));
  }

  lemma ResultHead()
    ensures "    let result = scaled - " == "    let " + "result" + " = " + "scaled" + " " + "-" + " "
  {
  }

  lemma ResultLine(n: nat)
    ensures IsLine(Let("result", Bin(Sub, Var("scaled"), Num(Offset(n)))), 4, "    let result = scaled - " + Print(Offset(n)) + ";\n")
  {
    ResultHead();
    BinLet("    let result = scaled - ", "result", "scaled", Sub, Offset(n));
  }

  lemma SumText(n: nat)
    ensures IsDecl(ValueFn(n, SumStmts(n)), SumBody(n))
  {
    var h := "fn " + ValueName(n) + "() -> int {\n";
    var s := SumStmts(n);
    var l1 := "    let seed = " + Print(Seed(n)) + ";\n";
    var l2 := "    let shifted = seed + " + Print(n) + ";\n";
    var l3 := "    let scaled = shifted * " + Print(Factor(n)) + ";\n";
    var l4 := "    let result = scaled - " + Print(Offset(n)) + ";\n";
    SumLines(n);
    ScaledLine(n);
    ResultLine(n);
    ReturnResult();
    Five(h, Let("seed", Num(Seed(n))), l1, Let("shifted", Bin(Add, Var("seed"), Num(n))), l2,
         Let("scaled", Bin(Mul, Var("shifted"), Num(Factor(n)))), l3, Let("result", Bin(Sub, Var("scaled"), Num(Offset(n)))), l4,
         Return(Var("result")), "    return result;\n");
    PlainFnText(ValueName(n), s, h + l1 + l2 + l3 + l4 + "    return result;\n");
  }

  lemma Two(h: string, a: Stmt, la: string, b: Stmt, lb: string)
    requires IsLine(a, 4, la) && IsLine(b, 4, lb)
    ensures Opens(h, [a, b], 4, h + la + lb)
  {
    Start(h, 4);
    More(h, [], 4, h, a, la);
    assert [] + [a] == [a];
    More(h, [a], 4, h + la, b, lb);
    assert [a] + [b] == [a, b];
  }

  lemma Three(h: string, a: Stmt, la: string, b: Stmt, lb: string, c: Stmt, lc: string)
    requires IsLine(a, 4, la) && IsLine(b, 4, lb) && IsLine(c, 4, lc)
    ensures Opens(h, [a, b, c], 4, h + la + lb + lc)
  {
    Two(h, a, la, b, lb);
    More(h, [a, b], 4, h + la + lb, c, lc);
    assert [a, b] + [c] == [a, b, c];
  }

  lemma Four(h: string, a: Stmt, la: string, b: Stmt, lb: string, c: Stmt, lc: string, d: Stmt, ld: string)
    requires IsLine(a, 4, la) && IsLine(b, 4, lb) && IsLine(c, 4, lc) && IsLine(d, 4, ld)
    ensures Opens(h, [a, b, c, d], 4, h + la + lb + lc + ld)
  {
    Three(h, a, la, b, lb, c, lc);
    More(h, [a, b, c], 4, h + la + lb + lc, d, ld);
    assert [a, b, c] + [d] == [a, b, c, d];
  }

  lemma Five(h: string, a: Stmt, la: string, b: Stmt, lb: string, c: Stmt, lc: string, d: Stmt, ld: string, e: Stmt, le: string)
    requires IsLine(a, 4, la) && IsLine(b, 4, lb) && IsLine(c, 4, lc) && IsLine(d, 4, ld) && IsLine(e, 4, le)
    ensures Opens(h, [a, b, c, d, e], 4, h + la + lb + lc + ld + le)
  {
    Four(h, a, la, b, lb, c, lc, d, ld);
    More(h, [a, b, c, d], 4, h + la + lb + lc + ld, e, le);
    assert [a, b, c, d] + [e] == [a, b, c, d, e];
  }

  lemma One(h: string, s: Stmt, line: string)
    requires IsLine(s, 8, line)
    ensures Opens(h, [s], 8, h + line)
  {
    Start(h, 8);
    More(h, [], 8, h, s, line);
    assert [] + [s] == [s];
  }

  // ----- n % 4 == 1 -----

  lemma BaseLine(n: nat)
    ensures IsLine(DistanceStmts(n)[0], 4, "    let base = (" + Print(Seed(n)) + " * " + Print(Factor(n)) + ") + " + Print(n) + ";\n")
  {
    var a, b, c := Print(Seed(n)), Print(Factor(n)), Print(n);
    NumText(Seed(n));
    NumText(Factor(n));
    NumText(n);
    var product := Bin(Mul, Num(Seed(n)), Num(Factor(n)));
    BinText(Mul, Num(Seed(n)), a, Num(Factor(n)), b);
    GroupText(product, a + " * " + b);
    BinText(Add, Group(product), "(" + (a + " * " + b) + ")", Num(n), c);
    var t := "(" + (a + " * " + b) + ")" + " + " + c;
    LetLine("    let base = ", "base", Bin(Add, Group(product), Num(n)), t);
    BaseParts(a, b, c);
  }

  lemma BaseParts(a: string, b: string, c: string)
    ensures "    let base = " + ("(" + (a + " * " + b) + ")" + " + " + c) + ";\n"
         == "    let base = (" + a + " * " + b + ") + " + c + ";\n"
  {
    assert "(" + (a + " * " + b) + ")" + " + " + c == "(" + a + " * " + b + ") + " + c;
  }

  lemma ConditionText()
    ensures IsExpr(Bin(Gt, Var("base"), Var("threshold")), "base > threshold")
  {
    VarText("base");
    VarText("threshold");
    BinText(Gt, Var("base"), "base", Var("threshold"), "threshold");
    assert "base" + " " + ">" + " " + "threshold" == "base > threshold";
  }

  lemma BranchReturns()
    ensures IsLine(Return(Bin(Sub, Var("base"), Var("threshold"))), 8, "        return base - threshold;\n")
    ensures IsLine(Return(Bin(Sub, Var("threshold"), Var("base"))), 8, "        return threshold - base;\n")
  {
    ReturnBin("        return base - threshold;\n", Sub, "base", "threshold");
    ReturnBin("        return threshold - base;\n", Sub, "threshold", "base");
  }

  /** A conditional with one line in each branch. */
  lemma TwoBranches(c: Expr, t: string, a: Stmt, la: string, b: Stmt, lb: string, head: string)
    requires IsExpr(c, t) && IsLine(a, 8, la) && IsLine(b, 8, lb) && head == "    if " + t + " {\n"
    ensures IsLine(If(c, [a], [b], true), 4, head + la + "    } else {\n" + lb + "    };\n")
  {
    One(head, a, la);
    One(head + la + "    } else {\n", b, lb);
    IfElseLines(c, t, [a], head + la, [b], head + la + "    } else {\n" + lb);
  }

  lemma BranchLines(n: nat)
    ensures IsLine(DistanceStmts(n)[2], 4,
      "    if base > threshold {\n" + "        return base - threshold;\n" + "    } else {\n"
      + "        return threshold - base;\n" + "    };\n")
  {
    ConditionText();
    BranchReturns();
    TwoBranches(Bin(Gt, Var("base"), Var("threshold")), "base > threshold",
                Return(Bin(Sub, Var("base"), Var("threshold"))), "        return base - threshold;\n",
                Return(Bin(Sub, Var("threshold"), Var("base"))), "        return threshold - base;\n", "    if base > threshold {\n");
  }

  lemma DistanceText(n: nat)
    ensures IsDecl(ValueFn(n, DistanceStmts(n)), DistanceBody(n))
  {
    var h := "fn " + ValueName(n) + "() -> int {\n";
    var s := DistanceStmts(n);
    var l1 := "    let base = (" + Print(Seed(n)) + " * " + Print(Factor(n)) + ") + " + Print(n) + ";\n";
    var l2 := "    let threshold = " + Print(Threshold(n)) + ";\n";
    var l3 := "    if base > threshold {\n" + "        return base - threshold;\n" + "    } else {\n"
      + "        return threshold - base;\n" + "    };\n";
    BaseLine(n);
    NumLet("    let threshold = ", "threshold", Threshold(n));
    BranchLines(n);
    Three(h, s[0], l1, s[1], l2, s[2], l3);
    PlainFnText(ValueName(n), s, h + l1 + l2 + l3);
    DistanceParts(h + l1 + l2);
  }

  lemma DistanceParts(a: string)
    ensures a + ("    if base > threshold {\n" + "        return base - threshold;\n" + "    } else {\n"
      + "        return threshold - base;\n" + "    };\n")
      == a + "    if base > threshold {\n" + "        return base - threshold;\n" + "    } else {\n"
      + "        return threshold - base;\n" + "    };\n"
  {
    FiveParts(a, "    if base > threshold {\n", "        return base - threshold;\n", "    } else {\n",
              "        return threshold - base;\n", "    };\n");
  }

  lemma FiveParts(a: string, b: string, c: string, d: string, e: string, f: string)
    ensures a + (b + c + d + e + f) == a + b + c + d + e + f
  {
    assert a + (b + c) == a + b + c;
    assert a + (b + c + d) == a + b + c + d;
    assert a + (b + c + d + e) == a + b + c + d + e;
  }

  // ----- n % 4 == 2 -----

  lemma TotalStepLine()
    ensures IsLine(Assign("total", Bin(Add, Var("total"), Var("i"))), 8, "        total = total + i;\n")
  {
    VarText("total");
    VarText("i");
    BinText(Add, Var("total"), "total", Var("i"), "i");
    AssignLine("        total = ", "total", Bin(Add, Var("total"), Var("i")), "total + i");
    assert "        total = " + "total + i" + ";\n" == "        total = total + i;\n";
  }

  lemma LoopLines(n: nat)
    ensures IsLine(LoopStmts(n)[1], 4, "    for i in 1.." + Print(Limit(n)) + " {\n" + "        total = total + i;\n" + "    }\n")
  {
    var h := "    for i in 1.." + Print(Limit(n)) + " {\n";
    NumText(1);
    NumText(Limit(n));
    TotalStepLine();
    var step := Assign("total", Bin(Add, Var("total"), Var("i")));
    One(h, step, "        total = total + i;\n");
    assert Print(1) == "1";
    assert "    for " + "i" + " in " + "1" + ".." == "    for i in 1..";
    ForLines("i", Num(1), Print(1), Num(Limit(n)), Print(Limit(n)), [step], h + "        total = total + i;\n");
  }

  lemma TotalLines(n: nat)
    ensures IsLine(LoopStmts(n)[0], 4, "    let total = 0;\n")
    ensures IsLine(LoopStmts(n)[2], 4, "    let result = total + " + Print(Offset(n)) + ";\n")
  {
    NumLet("    let total = ", "total", 0);
    assert "    let total = " + Print(0) + ";\n" == "    let total = 0;\n";
    BinLet("    let result = total + ", "result", "total", Add, Offset(n));
  }

  lemma LoopText(n: nat)
    ensures IsDecl(ValueFn(n, LoopStmts(n)), LoopBody(n))
  {
    var h := "fn " + ValueName(n) + "() -> int {\n";
    var s := LoopStmts(n);
    var l1 := "    let total = 0;\n";
    var head := "    for i in 1.." + Print(Limit(n)) + " {\n";
    var l2 := head + "        total = total + i;\n" + "    }\n";
    var l3 := "    let result = total + " + Print(Offset(n)) + ";\n";
    TotalLines(n);
    LoopLines(n);
    ReturnResult();
    Four(h, s[0], l1, s[1], l2, s[2], l3, s[3], "    return result;\n");
    PlainFnText(ValueName(n), s, h + l1 + l2 + l3 + "    return result;\n");
    LoopParts(h + l1, head);
  }

  lemma LoopParts(a: string, head: string)
    ensures a + (head + "        total = total + i;\n" + "    }\n") == a + head + "        total = total + i;\n" + "    }\n"
  {
    ThreeParts(a, head, "        total = total + i;\n", "    }\n");
  }

  lemma ThreeParts(a: string, b: string, c: string, d: string)
    ensures a + (b + c + d) == a + b + c + d
  {
    assert a + (b + c) == a + b + c;
  }

  // ----- n % 4 == 3 -----

  lemma ProductLine()
    ensures IsLine(MixStmts()[0], 4, "    let product = left * right;\n")
  {
    VarText("left");
    VarText("right");
    BinText(Mul, Var("left"), "left", Var("right"), "right");
    LetLine("    let product = ", "product", Bin(Mul, Var("left"), Var("right")), "left * right");
    assert "    let product = " + "left * right" + ";\n" == "    let product = left * right;\n";
  }

  lemma MixResult()
    ensures IsExpr(Bin(Sub, Bin(Add, Var("product"), Var("left")), Var("right")), "product + left - right")
  {
    VarText("product");
    VarText("left");
    VarText("right");
    BinText(Add, Var("product"), "product", Var("left"), "left");
    var sum := "product" + " " + "+" + " " + "left";
    BinText(Sub, Bin(Add, Var("product"), Var("left")), sum, Var("right"), "right");
    assert sum == "product + left";
    assert sum + " " + "-" + " " + "right" == "product + left - right";
  }

  lemma MixLine()
    ensures IsLine(MixStmts()[1], 4, "    let result = product + left - right;\n")
  {
    MixResult();
    LetLine("    let result = ", "result", Bin(Sub, Bin(Add, Var("product"), Var("left")), Var("right")), "product + left - right");
    assert "    let result = " + "product + left - right" + ";\n" == "    let result = product + left - right;\n";
  }

  lemma MixParams(k: string)
    ensures PrintParams(["left", "right"], k) == "left: int, right: int" + k
  {
    assert ["left", "right"][1..] == ["right"];
    assert PrintParams(["right"], k) == "right: int" + k;
    assert "left" + (":" + (" " + ("int" + ("," + (" " + ("right: int" + k)))))) == "left: int, right: int" + k;
  }

  lemma MixBlock(h: string)
    ensures Opens(h, MixStmts(), 4, h + "    let product = left * right;\n" + "    let result = product + left - right;\n" + "    return result;\n")
  {
    ProductLine();
    MixLine();
    ReturnResult();
    var s := MixStmts();
    Three(h, s[0], "    let product = left * right;\n", s[1], "    let result = product + left - right;\n", s[2], "    return result;\n");
  }

  lemma MixHead(f: string)
    ensures "fn " + f + "(" + "left: int, right: int" + ") -> int {\n" == "fn " + f + "(left: int, right: int) -> int {\n"
  {
    assert "(" + ("left: int, right: int" + ") -> int {\n") == "(left: int, right: int) -> int {\n";
    assert "fn " + f + "(" + "left: int, right: int" + ") -> int {\n" == "fn " + f + ("(" + ("left: int, right: int" + ") -> int {\n"));
  }

  lemma MixText(n: nat)
    ensures IsDecl(Fn(MixName(n), ["left", "right"], MixStmts(), false), MixPart(n))
  {
    var h := "fn " + MixName(n) + "(left: int, right: int) -> int {\n";
    MixBlock(h);
    MixHead(MixName(n));
    forall k ensures PrintParams(["left", "right"], k) == "left: int, right: int" + k {
      MixParams(k);
    }
    FnText(MixName(n), ["left", "right"], "left: int, right: int", MixStmts(),
           h + "    let product = left * right;\n" + "    let result = product + left - right;\n" + "    return result;\n");
  }

  lemma CallText(n: nat)
    ensures IsDecl(ValueFn(n, CallStmts(n)), CallPart(n))
  {
    var h := "fn " + ValueName(n) + "() -> int {\n";
    var a, b := Print(LeftArg(n)), Print(RightArg(n));
    NumText(LeftArg(n));
    NumText(RightArg(n));
    Call2Text(MixName(n), Num(LeftArg(n)), a, Num(RightArg(n)), b);
    var t := MixName(n) + "(" + a + ", " + b + ")";
    LetLine("    let result = ", "result", CallStmts(n)[0].value, t);
    var l1 := "    let result = " + MixName(n) + "(" + a + ", " + b + ");\n";
    assert "    let result = " + t + ";\n" == l1;
    ReturnResult();
    Two(h, CallStmts(n)[0], l1, CallStmts(n)[1], "    return result;\n");
    PlainFnText(ValueName(n), CallStmts(n), h + l1 + "    return result;\n");
  }

  // ----- the rest of the text -----

  lemma ValueCallLine(head: string, x: string, n: nat)
    requires head == "    let " + x + " = "
    ensures IsLine(Let(x, Call(ValueName(n), [])), 4, head + ValueName(n) + "();\n")
  {
    Call0Text(ValueName(n));
    LetLine(head, x, Call(ValueName(n), []), ValueName(n) + "()");
    assert head + (ValueName(n) + "()") + ";\n" == head + ValueName(n) + "();\n";
  }

  lemma MainDeclText(n: nat)
    ensures IsDecl(MainFn(n), MainText(n))
  {
    var h := "fn main() -> int {\n";
    var l1 := "    let result = " + ValueName(n) + "();\n";
    ValueCallLine("    let result = ", "result", n);
    ReturnResult();
    Two(h, Let("result", Call(ValueName(n), [])), l1, Return(Var("result")), "    return result;\n");
    assert "fn " + "main" + "() -> int {\n" == h;
    PlainFnText("main", [Let("result", Call(ValueName(n), [])), Return(Var("result"))], h + l1 + "    return result;\n");
  }

  lemma PanicLine(n: nat)
    ensures IsLine(Do(Call("panic", [Num(n)])), 8, "        panic(" + Print(n) + ");\n")
  {
    Indents();
    NumText(n);
    Call1Text("panic", Num(n), Print(n));
    DoLine(Call("panic", [Num(n)]), "panic" + "(" + Print(n) + ")", 8, "        ");
    assert "        " + ("panic" + "(" + Print(n) + ")") + ";\n" == "        panic(" + Print(n) + ");\n";
  }

  lemma GuardLines(n: nat, expected: nat)
    ensures IsLine(TestStmts(n, expected)[1], 4,
      "    if got != " + Print(expected) + " {\n" + ("        panic(" + Print(n) + ");\n") + "    };\n")
  {
    var h := "    if got != " + Print(expected) + " {\n";
    VarText("got");
    NumText(expected);
    BinText(Ne, Var("got"), "got", Num(expected), Print(expected));
    var t := "got" + " " + "!=" + " " + Print(expected);
    assert "    if " + t + " {\n" == h;
    PanicLine(n);
    var panic := Do(Call("panic", [Num(n)]));
    One(h, panic, "        panic(" + Print(n) + ");\n");
    IfLines(Bin(Ne, Var("got"), Num(expected)), t, [panic], h + ("        panic(" + Print(n) + ");\n"));
  }

  lemma TestLayout(n: nat, name: string, expected: nat)
    requires Expected(n) == expected
    ensures IsDecl(Test(TestTag(n, name), TestStmts(n, expected), true), TestText(n, name))
  {
    var h := "@test \"" + TestTag(n, name) + "\"() {\n";
    var s := TestStmts(n, expected);
    var l1 := "    let got = " + ValueName(n) + "();\n";
    var head := "    if got != " + Print(expected) + " {\n";
    var panic := "        panic(" + Print(n) + ");\n";
    ValueCallLine("    let got = ", "got", n);
    GuardLines(n, expected);
    Two(h, s[0], l1, s[1], head + panic + "    };\n");
    TestDeclText(TestTag(n, name), s, h + l1 + (head + panic + "    };\n"));
    ThreeParts(h + l1, head, panic, "    };\n");
  }

  // ----- the whole text -----

  lemma FunctionsText(n: nat, k: string)
    ensures PrintProgram(Functions(n), k) == BodyText(n) + k
  {
    if n % 4 == 0 {
      SumText(n);
    } else if n % 4 == 1 {
      DistanceText(n);
    } else if n % 4 == 2 {
      LoopText(n);
    } else {
      MixText(n);
      CallText(n);
      var fs := Functions(n);
      assert fs[1..] == [fs[1]];
      assert PrintProgram([fs[1]], k) == CallPart(n) + k;
      assert MixPart(n) + ("\n" + (CallPart(n) + k)) == MixPart(n) + "\n" + CallPart(n) + k;
    }
  }

  lemma {:induction false} ProgramAppend(a: seq<Decl>, b: seq<Decl>, k: string)
    requires a != [] && b != []
    ensures PrintProgram(a + b, k) == PrintProgram(a, "\n" + PrintProgram(b, k))
  {
    assert (a + b)[0] == a[0] && (a + b)[1..] == a[1..] + b;
    if |a| == 1 {
      assert a[1..] + b == b;
    } else {
      ProgramAppend(a[1..], b, k);
    }
  }

  /** Below its comments, the text is the layout of the program, provided Python's value is a natural number. */
  lemma ProgramText(n: nat, name: string, expected: nat)
    requires Expected(n) == expected
    ensures PrintProgram(Program(n, name, expected), "")
         == BodyText(n) + ("\n" + (MainText(n) + ("\n" + TestText(n, name))))
  {
    var test := Test(TestTag(n, name), TestStmts(n, expected), true);
    MainDeclText(n);
    TestLayout(n, name, expected);
    assert [MainFn(n), test][1..] == [test];
    assert PrintProgram([test], "") == TestText(n, name) + "";
    assert TestText(n, name) + "" == TestText(n, name);
    assert PrintProgram([MainFn(n), test], "") == MainText(n) + ("\n" + TestText(n, name));
    ProgramAppend(Functions(n), [MainFn(n), test], "");
    FunctionsText(n, "\n" + (MainText(n) + ("\n" + TestText(n, name))));
  }
}
