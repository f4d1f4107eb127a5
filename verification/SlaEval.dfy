/** What a parsed program computes. Integers are those of a machine type: a result outside `-max - 1 .. max` is an
    overflow and not a value. Comparisons yield 1 or 0. */
module SlaEval {
  import opened SlaSyntax

  datatype Fault = Overflow | Undefined(name: string) | WrongArity(name: string) | NoResult(name: string) | TooDeep

  /** Local variables, the innermost last. */
  type Env = seq<(string, int)>

  datatype Value = Yield(n: int) | Panic(code: int) | Stuck(fault: Fault)

  datatype Values = Ints(ns: seq<int>) | PanicIn(code: int) | StuckIn(fault: Fault)

  datatype Flow = Next(env: Env) | Returned(n: int) | Panicked(code: int) | Broken(fault: Fault)

  function Find(env: Env, x: string): (i: int)
    ensures -1 <= i < |env|
    ensures i >= 0 ==> env[i].0 == x
  {
    if env == [] then -1 else if env[|env| - 1].0 == x then |env| - 1 else Find(env[..|env| - 1], x)
  }

  function Checked(n: int, max: nat): Value {
    if n <= max && -n - 1 <= max then Yield(n) else Stuck(Overflow)
  }

  function Apply(op: Op, a: int, b: int, max: nat): Value {
    match op
    case Add => Checked(a + b, max)
    case Sub => Checked(a - b, max)
    case Mul => Checked(a * b, max)
    case Gt => Yield(if a > b then 1 else 0)
    case Ne => Yield(if a != b then 1 else 0)
  }

  /** The first function of a name. */
  function FindFn(prog: seq<Decl>, name: string): (i: nat)
    ensures i <= |prog|
    ensures i < |prog| ==> prog[i].Fn? && prog[i].name == name
    ensures forall j :: 0 <= j < i ==> prog[j].Fn? ==> prog[j].name != name
  {
    if prog == [] || (prog[0].Fn? && prog[0].name == name) then 0 else 1 + FindFn(prog[1..], name)
  }

  function Bind(params: seq<string>, args: seq<int>): (env: Env)
    requires |params| == |args|
  {
    seq(|params|, i requires 0 <= i < |params| => (params[i], args[i]))
  }

  datatype Entry = Entered(body: seq<Stmt>, locals: Env) | Blocked(fault: Fault)

  /** Where a call goes. */
  function Target(prog: seq<Decl>, f: string, args: seq<int>, depth: nat): (entry: Entry)
    ensures entry.Entered? ==> depth > 0
  {
    var i := FindFn(prog, f);
    if i == |prog| then Blocked(Undefined(f))
    else if |prog[i].params| != |args| then Blocked(WrongArity(f))
    else if depth == 0 then Blocked(TooDeep)
    else Entered(prog[i].body, Bind(prog[i].params, args))
  }

  function Result(f: string, flow: Flow): Value {
    match flow
    case Returned(n) => Yield(n)
    case Panicked(code) => Panic(code)
    case Broken(fault) => Stuck(fault)
    case Next(_) => Stuck(NoResult(f))
  }

  /** `depth` bounds the nesting of calls; a program without recursion never needs more than it has functions. */
  function Eval(prog: seq<Decl>, e: Expr, env: Env, depth: nat, max: nat): Value
    decreases depth, e, 1
  {
    match e
    case Num(n) => Checked(n, max)
    case Var(x) => if Find(env, x) < 0 then Stuck(Undefined(x)) else Yield(env[Find(env, x)].1)
    case Group(i) => Eval(prog, i, env, depth, max)
    case Bin(op, l, r) =>
      (match Eval(prog, l, env, depth, max)
       case Yield(a) =>
         (match Eval(prog, r, env, depth, max)
          case Yield(b) => Apply(op, a, b, max)
          case other => other)
       case other => other)
    case Call(f, args) =>
      match EvalAll(prog, args, env, depth, max)
      case PanicIn(code) => Panic(code)
      case StuckIn(fault) => Stuck(fault)
      case Ints(ns) =>
        if f == "panic" then (if |ns| == 1 then Panic(ns[0]) else Stuck(WrongArity(f)))
        else
          match Target(prog, f, ns, depth)
          case Blocked(fault) => Stuck(fault)
          case Entered(body, locals) => Result(f, Run(prog, body, locals, depth - 1, max))
  }

  function EvalAll(prog: seq<Decl>, es: seq<Expr>, env: Env, depth: nat, max: nat): Values
    decreases depth, es, 0
  {
    if es == [] then Ints([])
    else
      match Eval(prog, es[0], env, depth, max)
      case Panic(code) => PanicIn(code)
      case Stuck(fault) => StuckIn(fault)
      case Yield(n) =>
        match EvalAll(prog, es[1..], env, depth, max)
        case Ints(ns) => Ints([n] + ns)
        case other => other
  }

  /** Statements of one block, in order. */
  function Run(prog: seq<Decl>, ss: seq<Stmt>, env: Env, depth: nat, max: nat): Flow
    decreases depth, ss, 0
  {
    if ss == [] then Next(env)
    else
      match Step(prog, ss[0], env, depth, max)
      case Next(after) => Run(prog, ss[1..], after, depth, max)
      case other => other
  }

  /** A block of its own: its variables end with it. */
  function Scoped(flow: Flow, outer: Env): Flow {
    match flow
    case Next(env) => if |env| >= |outer| then Next(env[..|outer|]) else flow
    case other => other
  }

  function Step(prog: seq<Decl>, s: Stmt, env: Env, depth: nat, max: nat): Flow
    decreases depth, s, 1
  {
    match s
    case Let(x, e) =>
      (match Eval(prog, e, env, depth, max)
       case Yield(n) => Next(env + [(x, n)])
       case Panic(code) => Panicked(code)
       case Stuck(fault) => Broken(fault))
    case Assign(x, e) =>
      (match Eval(prog, e, env, depth, max)
       case Yield(n) => if Find(env, x) < 0 then Broken(Undefined(x)) else Next(env[Find(env, x) := (x, n)])
       case Panic(code) => Panicked(code)
       case Stuck(fault) => Broken(fault))
    case Return(e) =>
      (match Eval(prog, e, env, depth, max)
       case Yield(n) => Returned(n)
       case Panic(code) => Panicked(code)
       case Stuck(fault) => Broken(fault))
    case Do(e) =>
      (match Eval(prog, e, env, depth, max)
       case Yield(_) => Next(env)
       case Panic(code) => Panicked(code)
       case Stuck(fault) => Broken(fault))
    case If(c, t, e, _) =>
      (match Eval(prog, c, env, depth, max)
       case Yield(n) => Scoped(Run(prog, if n != 0 then t else e, env, depth, max), env)
       case Panic(code) => Panicked(code)
       case Stuck(fault) => Broken(fault))
    case For(x, a, b, body) =>
      match Eval(prog, a, env, depth, max)
      case Panic(code) => Panicked(code)
      case Stuck(fault) => Broken(fault)
      case Yield(lo) =>
        match Eval(prog, b, env, depth, max)
        case Panic(code) => Panicked(code)
        case Stuck(fault) => Broken(fault)
        case Yield(hi) => Loop(prog, x, body, lo, hi, env, depth, max)
  }

  /** `for x in lo..hi`: `hi` itself is not visited. */
  function Loop(prog: seq<Decl>, x: string, body: seq<Stmt>, lo: int, hi: int, env: Env, depth: nat, max: nat): Flow
    decreases depth, body, 1, hi - lo
  {
    if lo >= hi then Next(env)
    else
      match Scoped(Run(prog, body, env + [(x, lo)], depth, max), env)
      case Next(after) => Loop(prog, x, body, lo + 1, hi, after, depth, max)
      case other => other
  }

  datatype Outcome = Passed | Failed(code: int) | Faulty(fault: Fault)

  /** The tests of a program, in order, until one does not pass. */
  function RunTests(prog: seq<Decl>, tests: seq<Decl>, max: nat): Outcome {
    if tests == [] then Passed
    else if tests[0].Fn? then RunTests(prog, tests[1..], max)
    else
      match Run(prog, tests[0].body, [], |prog|, max)
      case Panicked(code) => Failed(code)
      case Broken(fault) => Faulty(fault)
      case _ => RunTests(prog, tests[1..], max)
  }
}
