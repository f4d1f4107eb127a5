/** What the generated programs compute, for every catalogue number and every integer width. */
module RosettaRuns {
  import opened SlaSyntax
  import opened SlaParser
  import opened SlaEval
  import opened Rosetta

  // ----- the numbers -----

  function Max(a: nat, b: nat): nat {
    if a < b then b else a
  }

  /** The highest value that the value function passes through. */
  function Highest(n: nat): nat {
    if n % 4 == 0 then (Seed(n) + n) * Factor(n)
    else if n % 4 == 1 then Max(Base(n), Threshold(n))
    else if n % 4 == 2 then SumRange(1, Limit(n)) + Offset(n)
    else LeftArg(n) * RightArg(n) + LeftArg(n)
  }

  /** The highest integer of the whole program: the test also names the catalogue number. */
  function Peak(n: nat): nat {
    Max(n, Highest(n))
  }

  lemma MulGrows(a: nat, b: nat, c: nat)
    requires b <= c
    ensures a * b <= a * c
  {
  }

  lemma {:induction false} SumRangeBounds(lo: nat, hi: nat)
    ensures SumRange(lo, hi) <= hi * hi
    ensures lo < hi ==> hi - 1 <= SumRange(lo, hi)
    decreases hi
  {
    if lo < hi {
      SumRangeBounds(lo, hi - 1);
      assert hi * hi == (hi - 1) * (hi - 1) + 2 * hi - 1;
    }
  }

  lemma SmallNumbers(n: nat)
    ensures 3 <= Seed(n) <= 19 && 2 <= Factor(n) <= 10 && 5 <= Offset(n) <= 27 && 3 <= Limit(n) <= 10
    ensures 3 <= LeftArg(n) <= 29 && 7 <= RightArg(n) <= 37
  {
  }

  /** Python's value is never negative, so its decimal is a literal the language has. */
  lemma ExpectedIsNatural(n: nat)
    ensures 0 <= Expected(n) <= Highest(n)
  {
    SmallNumbers(n);
    if n % 4 == 0 {
      MulGrows(Seed(n) + n, 2, Factor(n));
      SumIsLarge(n);
    } else if n % 4 == 3 {
      MulGrows(RightArg(n), 3, LeftArg(n));
    }
  }

  /** Where the product is smallest, the offset is small, too. */
  lemma SumIsLarge(n: nat)
    requires n % 4 == 0
    ensures 2 * (Seed(n) + n) >= Offset(n)
  {
    if n < 12 {
      assert n == 0 || n == 4 || n == 8;
    }
  }

  /** Ten times the number and a bit more is always enough. */
  lemma PeakBound(n: nat)
    ensures Peak(n) <= Max(10 * (n + 19), 1102)
  {
    SmallNumbers(n);
    if n % 4 == 0 {
      MulGrows(Seed(n) + n, Factor(n), 10);
    } else if n % 4 == 1 {
      MulGrows(Seed(n), Factor(n), 10);
    } else if n % 4 == 2 {
      SumRangeBounds(1, Limit(n));
      MulGrows(Limit(n), Limit(n), 10);
    } else {
      MulGrows(LeftArg(n), RightArg(n), 37);
    }
  }

  // ----- single statements -----

  lemma FindSame(env: Env, x: string, v: int)
    ensures Find(env + [(x, v)], x) == |env|
  {
  }

  lemma FindOther(env: Env, x: string, y: string, v: int)
    requires x != y
    ensures Find(env + [(y, v)], x) == Find(env, x)
    ensures Find(env, x) >= 0 ==> (env + [(y, v)])[Find(env, x)] == env[Find(env, x)]
  {
    assert (env + [(y, v)])[..|env|] == env;
  }

  /** A block goes on after a `let` once its value is known. */
  function Resume(prog: seq<Decl>, value: Value, x: string, rest: seq<Stmt>, env: Env, depth: nat, max: nat): Flow {
    match value
    case Yield(v) => Run(prog, rest, env + [(x, v)], depth, max)
    case Panic(code) => Panicked(code)
    case Stuck(fault) => Broken(fault)
  }

  function Finish(value: Value): Flow {
    match value
    case Yield(v) => Returned(v)
    case Panic(code) => Panicked(code)
    case Stuck(fault) => Broken(fault)
  }

  function GoOn(prog: seq<Decl>, flow: Flow, rest: seq<Stmt>, depth: nat, max: nat): Flow {
    match flow
    case Next(after) => Run(prog, rest, after, depth, max)
    case other => other
  }

  lemma RunLet(prog: seq<Decl>, x: string, e: Expr, rest: seq<Stmt>, env: Env, depth: nat, max: nat)
    ensures Run(prog, [Let(x, e)] + rest, env, depth, max) == Resume(prog, Eval(prog, e, env, depth, max), x, rest, env, depth, max)
  {
    assert ([Let(x, e)] + rest)[1..] == rest;
  }

  lemma RunReturn(prog: seq<Decl>, e: Expr, env: Env, depth: nat, max: nat)
    ensures Run(prog, [Return(e)], env, depth, max) == Finish(Eval(prog, e, env, depth, max))
  {
  }

  lemma RunOne(prog: seq<Decl>, s: Stmt, rest: seq<Stmt>, env: Env, depth: nat, max: nat)
    ensures Run(prog, [s] + rest, env, depth, max) == GoOn(prog, Step(prog, s, env, depth, max), rest, depth, max)
  {
    assert ([s] + rest)[1..] == rest;
  }

  ghost predicate Holds(env: Env, x: string, v: int) {
    Find(env, x) >= 0 && env[Find(env, x)].1 == v
  }

  lemma Extend(env: Env, x: string, v: int)
    ensures Holds(env + [(x, v)], x, v)
    ensures forall y, w :: y != x && Holds(env, y, w) ==> Holds(env + [(x, v)], y, w)
  {
    FindSame(env, x, v);
    forall y, w | y != x && Holds(env, y, w) ensures Holds(env + [(x, v)], y, w) {
      FindOther(env, y, x, v);
    }
  }

  /** A flow that is a result when everything stays within the width, and an overflow otherwise. */
  function Within(fits: bool, v: int): Flow {
    if fits then Returned(v) else Broken(Overflow)
  }

  function GoIf(fits: bool, prog: seq<Decl>, rest: seq<Stmt>, env: Env, depth: nat, max: nat): Flow {
    if fits then Run(prog, rest, env, depth, max) else Broken(Overflow)
  }

  predicate InRange(v: int, max: nat) {
    v <= max && -v - 1 <= max
  }

  function Arith(op: Op, a: int, b: int): int {
    match op case Add => a + b case Sub => a - b case Mul => a * b case _ => 0
  }

  lemma LetNum(prog: seq<Decl>, x: string, k: nat, rest: seq<Stmt>, env: Env, depth: nat, max: nat)
    ensures Run(prog, [Let(x, Num(k))] + rest, env, depth, max) == GoIf(k <= max, prog, rest, env + [(x, k as int)], depth, max)
    ensures Holds(env + [(x, k as int)], x, k)
  {
    RunLet(prog, x, Num(k), rest, env, depth, max);
    Extend(env, x, k);
  }

  lemma LetBin(prog: seq<Decl>, x: string, y: string, w: int, op: Op, k: nat, rest: seq<Stmt>, env: Env, depth: nat, max: nat)
    requires Holds(env, y, w) && op in {Add, Sub, Mul}
    ensures Run(prog, [Let(x, Bin(op, Var(y), Num(k)))] + rest, env, depth, max)
         == GoIf(k <= max && InRange(Arith(op, w, k), max), prog, rest, env + [(x, Arith(op, w, k))], depth, max)
    ensures Holds(env + [(x, Arith(op, w, k))], x, Arith(op, w, k))
  {
    RunLet(prog, x, Bin(op, Var(y), Num(k)), rest, env, depth, max);
    Extend(env, x, Arith(op, w, k));
  }

  lemma LetVars(prog: seq<Decl>, x: string, e: Expr, v: int, rest: seq<Stmt>, env: Env, depth: nat, max: nat)
    requires Eval(prog, e, env, depth, max) == Checked(v, max)
    ensures Run(prog, [Let(x, e)] + rest, env, depth, max) == GoIf(InRange(v, max), prog, rest, env + [(x, v)], depth, max)
    ensures Holds(env + [(x, v)], x, v)
    ensures forall y, w :: y != x && Holds(env, y, w) ==> Holds(env + [(x, v)], y, w)
  {
    RunLet(prog, x, e, rest, env, depth, max);
    Extend(env, x, v);
  }

  lemma ReturnVar(prog: seq<Decl>, x: string, v: int, env: Env, depth: nat, max: nat)
    requires Holds(env, x, v)
    ensures Run(prog, [Return(Var(x))], env, depth, max) == Returned(v)
  {
    RunReturn(prog, Var(x), env, depth, max);
  }

  // ----- n % 4 == 0 -----

  /** A last `let` and the return of its variable. */
  lemma LetAndReturn(prog: seq<Decl>, x: string, y: string, w: int, op: Op, k: nat, env: Env, depth: nat, max: nat)
    requires Holds(env, y, w) && op in {Add, Sub, Mul}
    ensures Run(prog, [Let(x, Bin(op, Var(y), Num(k))), Return(Var(x))], env, depth, max)
         == Within(k <= max && InRange(Arith(op, w, k), max), Arith(op, w, k))
  {
    var r := Arith(op, w, k);
    LetBin(prog, x, y, w, op, k, [Return(Var(x))], env, depth, max);
    assert [Let(x, Bin(op, Var(y), Num(k)))] + [Return(Var(x))] == [Let(x, Bin(op, Var(y), Num(k))), Return(Var(x))];
    ReturnVar(prog, x, r, env + [(x, r)], depth, max);
  }

  lemma RunScaled(prog: seq<Decl>, shifted: nat, f: nat, o: nat, env: Env, depth: nat, max: nat)
    requires Holds(env, "shifted", shifted)
    ensures Run(prog, [Let("scaled", Bin(Mul, Var("shifted"), Num(f))), Let("result", Bin(Sub, Var("scaled"), Num(o))), Return(Var("result"))], env, depth, max)
         == Within(f <= max && shifted * f <= max && o <= max && InRange(shifted * f - o, max), shifted * f - o)
  {
    var rest := [Let("result", Bin(Sub, Var("scaled"), Num(o))), Return(Var("result"))];
    LetBin(prog, "scaled", "shifted", shifted, Mul, f, rest, env, depth, max);
    LetAndReturn(prog, "result", "scaled", shifted * f, Sub, o, env + [("scaled", Arith(Mul, shifted, f))], depth, max);
    assert [Let("scaled", Bin(Mul, Var("shifted"), Num(f)))] + rest
        == [Let("scaled", Bin(Mul, Var("shifted"), Num(f))), Let("result", Bin(Sub, Var("scaled"), Num(o))), Return(Var("result"))];
  }

  lemma RunShifted(prog: seq<Decl>, s: nat, n: nat, rest: seq<Stmt>, depth: nat, max: nat)
    ensures Run(prog, [Let("seed", Num(s)), Let("shifted", Bin(Add, Var("seed"), Num(n)))] + rest, [], depth, max)
         == GoIf(s <= max && n <= max && s + n <= max, prog, rest, [("seed", s as int), ("shifted", s + n)], depth, max)
    ensures Holds([("seed", s as int), ("shifted", s + n)], "shifted", s + n)
  {
    var second := [Let("shifted", Bin(Add, Var("seed"), Num(n)))] + rest;
    assert [Let("seed", Num(s)), Let("shifted", Bin(Add, Var("seed"), Num(n)))] + rest == [Let("seed", Num(s))] + second;
    LetNum(prog, "seed", s, second, [], depth, max);
    LetBin(prog, "shifted", "seed", s, Add, n, rest, [] + [("seed", s as int)], depth, max);
    assert [] + [("seed", s as int)] + [("shifted", Arith(Add, s, n))] == [("seed", s as int), ("shifted", s + n)];
  }

  lemma RunSum(prog: seq<Decl>, n: nat, depth: nat, max: nat)
    requires n % 4 == 0
    ensures Run(prog, SumStmts(n), [], depth, max) == Within(Highest(n) <= max, Expected(n))
  {
    SmallNumbers(n);
    ExpectedIsNatural(n);
    var s, f, o := Seed(n), Factor(n), Offset(n);
    MulGrows(s + n, 2, f);
    MulGrows(f, 1, s + n);
    var rest := [Let("scaled", Bin(Mul, Var("shifted"), Num(f))), Let("result", Bin(Sub, Var("scaled"), Num(o))), Return(Var("result"))];
    assert SumStmts(n) == [Let("seed", Num(s)), Let("shifted", Bin(Add, Var("seed"), Num(n)))] + rest;
    RunShifted(prog, s, n, rest, depth, max);
    RunScaled(prog, s + n, f, o, [("seed", s as int), ("shifted", s + n)], depth, max);
  }

  // ----- n % 4 == 1 -----

  function Distance(a: int, b: int): int {
    if a > b then a - b else b - a
  }

  function Branches(): Stmt {
    If(Bin(Gt, Var("base"), Var("threshold")),
       [Return(Bin(Sub, Var("base"), Var("threshold")))],
       [Return(Bin(Sub, Var("threshold"), Var("base")))], true)
  }

  lemma RunBranches(prog: seq<Decl>, a: nat, b: nat, env: Env, depth: nat, max: nat)
    requires Holds(env, "base", a) && Holds(env, "threshold", b) && a <= max && b <= max
    ensures Run(prog, [Branches()], env, depth, max) == Returned(Distance(a, b))
  {
    RunReturn(prog, Bin(Sub, Var("base"), Var("threshold")), env, depth, max);
    RunReturn(prog, Bin(Sub, Var("threshold"), Var("base")), env, depth, max);
    RunOne(prog, Branches(), [], env, depth, max);
    assert [Branches()] + [] == [Branches()];
  }

  /** `a * b + n`, where the largest intermediate is the last. */
  lemma EvalBase(prog: seq<Decl>, a: nat, b: nat, n: nat, env: Env, depth: nat, max: nat)
    requires a >= 1 && b >= 1
    ensures Eval(prog, Bin(Add, Bin(Mul, Num(a), Num(b)), Num(n)), env, depth, max) == Checked(a * b + n, max)
  {
    MulGrows(a, 1, b);
    MulGrows(b, 1, a);
    assert Eval(prog, Bin(Mul, Num(a), Num(b)), env, depth, max) == Checked(a * b, max);
  }

  lemma RunThreshold(prog: seq<Decl>, a: nat, b: nat, env: Env, depth: nat, max: nat)
    requires Holds(env, "base", a) && a <= max
    ensures Run(prog, [Let("threshold", Num(b)), Branches()], env, depth, max) == Within(b <= max, Distance(a, b))
  {
    assert [Let("threshold", Num(b)), Branches()] == [Let("threshold", Num(b))] + [Branches()];
    LetNum(prog, "threshold", b, [Branches()], env, depth, max);
    Extend(env, "threshold", b);
    if b <= max {
      RunBranches(prog, a, b, env + [("threshold", b as int)], depth, max);
    }
  }

  lemma RunDistance(prog: seq<Decl>, n: nat, depth: nat, max: nat)
    requires n % 4 == 1
    ensures Run(prog, BareBlock(DistanceStmts(n)), [], depth, max) == Within(Highest(n) <= max, Expected(n))
  {
    SmallNumbers(n);
    var base := Bin(Add, Bin(Mul, Num(Seed(n)), Num(Factor(n))), Num(n));
    var second := [Let("threshold", Num(Threshold(n))), Branches()];
    BareDistance(n);
    EvalBase(prog, Seed(n), Factor(n), n, [], depth, max);
    assert BareBlock(DistanceStmts(n)) == [Let("base", base)] + second;
    LetVars(prog, "base", base, Base(n), second, [], depth, max);
    if Base(n) <= max {
      RunThreshold(prog, Base(n), Threshold(n), [] + [("base", Base(n) as int)], depth, max);
    }
  }

  lemma BareCons(s: Stmt, ss: seq<Stmt>)
    ensures BareBlock([s] + ss) == [BareStmt(s)] + BareBlock(ss)
  {
    assert ([s] + ss)[1..] == ss;
  }

  lemma BareOne(s: Stmt)
    ensures BareBlock([s]) == [BareStmt(s)]
  {
    BareCons(s, []);
    assert [s] + [] == [s];
  }

  lemma BareDistance(n: nat)
    ensures BareBlock(DistanceStmts(n)) ==
      [Let("base", Bin(Add, Bin(Mul, Num(Seed(n)), Num(Factor(n))), Num(n))), Let("threshold", Num(Threshold(n))), Branches()]
  {
    BareOne(Return(Bin(Sub, Var("base"), Var("threshold"))));
    BareOne(Return(Bin(Sub, Var("threshold"), Var("base"))));
    assert BareStmt(Branches()) == Branches();
    var second := [Let("threshold", Num(Threshold(n))), Branches()];
    BareOne(Branches());
    BareCons(Let("threshold", Num(Threshold(n))), [Branches()]);
    assert second == [Let("threshold", Num(Threshold(n)))] + [Branches()];
    assert BareBlock(second) == second;
    assert DistanceStmts(n) == [DistanceStmts(n)[0]] + second;
    BareCons(DistanceStmts(n)[0], second);
    var product := Bin(Mul, Num(Seed(n)), Num(Factor(n)));
    assert Bare(product) == product;
    assert Bare(Group(product)) == product;
    assert Bare(Bin(Add, Group(product), Num(n))) == Bin(Add, product, Bare(Num(n)));
    assert DistanceStmts(n)[0] == Let("base", Bin(Add, Group(product), Num(n)));
  }

  // ----- n % 4 == 2 -----

  function TotalStep(): seq<Stmt> {
    [Assign("total", Bin(Add, Var("total"), Var("i")))]
  }

  lemma FindTotal(t: int, i: int)
    ensures Find([("total", t)], "total") == 0
    ensures Find([("total", t), ("i", i)], "total") == 0 && Find([("total", t), ("i", i)], "i") == 1
  {
    FindSame([], "total", t);
    assert [] + [("total", t)] == [("total", t)];
    FindSame([("total", t)], "i", i);
    FindOther([("total", t)], "total", "i", i);
    assert [("total", t)] + [("i", i)] == [("total", t), ("i", i)];
  }

  lemma RunTotalStep(prog: seq<Decl>, t: nat, i: nat, depth: nat, max: nat)
    ensures Scoped(Run(prog, TotalStep(), [("total", t as int), ("i", i as int)], depth, max), [("total", t as int)])
         == if t + i <= max then Next([("total", t + i)]) else Broken(Overflow)
  {
    var env: Env := [("total", t as int), ("i", i as int)];
    FindTotal(t, i);
    var sum := Bin(Add, Var("total"), Var("i"));
    assert Eval(prog, Var("total"), env, depth, max) == Yield(t);
    assert Eval(prog, Var("i"), env, depth, max) == Yield(i);
    assert Eval(prog, sum, env, depth, max) == Checked(t + i, max);
    RunOne(prog, Assign("total", sum), [], env, depth, max);
    assert TotalStep() == [Assign("total", sum)] + [];
    assert env[0 := ("total", t + i)][..1] == [("total", t + i)];
  }

  /** The loop's invariant: on reaching `i`, the total is the sum of the numbers before it. */
  lemma {:induction false} RunLoop(prog: seq<Decl>, i: nat, limit: nat, depth: nat, max: nat)
    requires 1 <= i <= limit
    ensures Loop(prog, "i", TotalStep(), i, limit, [("total", SumRange(1, i) as int)], depth, max)
         == if SumRange(1, limit) <= max || i == limit then Next([("total", SumRange(1, limit) as int)]) else Broken(Overflow)
    decreases limit - i
  {
    if i < limit {
      var t := SumRange(1, i);
      RunTotalStep(prog, t, i, depth, max);
      assert [("total", t as int)] + [("i", i as int)] == [("total", t as int), ("i", i as int)];
      assert SumRange(1, i + 1) == t + i;
      SumRangeGrows(i + 1, limit);
      if t + i <= max {
        RunLoop(prog, i + 1, limit, depth, max);
      }
    }
  }

  lemma {:induction false} SumRangeGrows(i: nat, j: nat)
    requires 1 <= i <= j
    ensures SumRange(1, i) <= SumRange(1, j)
    decreases j
  {
    if i < j {
      SumRangeGrows(i, j - 1);
    }
  }

  lemma StepLoop(prog: seq<Decl>, limit: nat, depth: nat, max: nat)
    requires limit >= 3
    ensures Step(prog, For("i", Num(1), Num(limit), TotalStep()), [("total", 0)], depth, max)
         == if SumRange(1, limit) <= max && limit <= max then Next([("total", SumRange(1, limit) as int)]) else Broken(Overflow)
  {
    SumRangeBounds(1, limit);
    RunLoop(prog, 1, limit, depth, max);
  }

  lemma RunLoopBody(prog: seq<Decl>, n: nat, depth: nat, max: nat)
    requires n % 4 == 2
    ensures Run(prog, BareBlock(LoopStmts(n)), [], depth, max) == Within(Highest(n) <= max, Expected(n))
  {
    SmallNumbers(n);
    SumRangeBounds(1, Limit(n));
    var loop := For("i", Num(1), Num(Limit(n)), TotalStep());
    var last := [Let("result", Bin(Add, Var("total"), Num(Offset(n)))), Return(Var("result"))];
    BareLoop(n);
    assert BareBlock(LoopStmts(n)) == [Let("total", Num(0))] + ([loop] + last);
    LetNum(prog, "total", 0, [loop] + last, [], depth, max);
    assert [] + [("total", 0)] == [("total", 0)];
    RunOne(prog, loop, last, [("total", 0)], depth, max);
    StepLoop(prog, Limit(n), depth, max);
    var total := SumRange(1, Limit(n));
    FindTotal(total, 0);
    LetAndReturn(prog, "result", "total", total, Add, Offset(n), [("total", total as int)], depth, max);
  }

  lemma BareLoop(n: nat)
    ensures BareBlock(LoopStmts(n)) ==
      [Let("total", Num(0)), For("i", Num(1), Num(Limit(n)), TotalStep()),
       Let("result", Bin(Add, Var("total"), Num(Offset(n)))), Return(Var("result"))]
  {
    var s := LoopStmts(n);
    BareOne(TotalStep()[0]);
    assert TotalStep() == [TotalStep()[0]];
    assert BareStmt(s[0]) == s[0];
    assert BareStmt(s[1]) == s[1];
    assert Bare(Bin(Add, Var("total"), Num(Offset(n)))) == Bin(Add, Var("total"), Num(Offset(n)));
    assert BareStmt(s[2]) == s[2] && BareStmt(s[3]) == s[3];
    BareOne(s[3]);
    BareCons(s[2], [s[3]]);
    BareCons(s[1], [s[2]] + [s[3]]);
    BareCons(s[0], [s[1]] + ([s[2]] + [s[3]]));
    assert s == [s[0]] + ([s[1]] + ([s[2]] + [s[3]]));
  }

  // ----- n % 4 == 3 -----

  lemma RunMix(prog: seq<Decl>, a: nat, b: nat, depth: nat, max: nat)
    requires a >= 1 && b >= 1
    ensures Run(prog, MixStmts(), [("left", a as int), ("right", b as int)], depth, max) == Within(a * b + a <= max, a * b + a - b)
  {
    MulGrows(b, 1, a);
    var e0: Env := [("left", a as int), ("right", b as int)];
    FindOther([("left", a as int)], "left", "right", b);
    assert [("left", a as int)] + [("right", b as int)] == e0;
    FindSame([("left", a as int)], "right", b);
    FindSame([], "left", a);
    assert [] + [("left", a as int)] == [("left", a as int)];
    assert Holds(e0, "left", a) && Holds(e0, "right", b);
    var product := Bin(Mul, Var("left"), Var("right"));
    var last := [MixStmts()[1], Return(Var("result"))];
    assert MixStmts() == [Let("product", product)] + last;
    LetVars(prog, "product", product, a * b, last, e0, depth, max);
    if a * b <= max {
      RunMixResult(prog, a, b, e0 + [("product", a * b)], depth, max);
    }
  }

  lemma RunMixResult(prog: seq<Decl>, a: nat, b: nat, env: Env, depth: nat, max: nat)
    requires Holds(env, "left", a) && Holds(env, "right", b) && Holds(env, "product", a * b) && b <= a * b
    ensures Run(prog, [MixStmts()[1], Return(Var("result"))], env, depth, max) == Within(a * b + a <= max, a * b + a - b)
  {
    var sum := Bin(Add, Var("product"), Var("left"));
    var value := Bin(Sub, sum, Var("right"));
    var last := [Return(Var("result"))];
    assert Eval(prog, sum, env, depth, max) == Checked(a * b + a, max);
    assert [MixStmts()[1], Return(Var("result"))] == [Let("result", value)] + last;
    RunLet(prog, "result", value, last, env, depth, max);
    Extend(env, "result", a * b + a - b);
    ReturnVar(prog, "result", a * b + a - b, env + [("result", a * b + a - b)], depth, max);
  }
}
