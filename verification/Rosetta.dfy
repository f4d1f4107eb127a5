/** tools/generate_rosetta_sla_demos.py: the SLA companion of a catalogue entry, with the value it must compute. */
module Rosetta {
  import opened Strings
  import opened Tsv
  import opened Decimal
  import opened DemoName
  import opened SlaSyntax

  // ----- the numbers -----

  function Seed(n: nat): nat { n % 17 + 3 }
  function Factor(n: nat): nat { n % 9 + 2 }
  function Offset(n: nat): nat { n % 23 + 5 }
  function Limit(n: nat): nat { n % 8 + 3 }
  function Base(n: nat): nat { Seed(n) * Factor(n) + n }
  function Threshold(n: nat): nat { n + Offset(n) }
  function LeftArg(n: nat): nat { Seed(n) + n % 11 }
  function RightArg(n: nat): nat { Factor(n) + Offset(n) }

  /** `sum(range(lo, hi))` */
  function SumRange(lo: nat, hi: nat): nat
    decreases hi - lo
  {
    if lo >= hi then 0 else SumRange(lo, hi - 1) + (hi - 1)
  }

  /** The value that Python computes alongside the text. */
  function Expected(n: nat): int {
    if n % 4 == 0 then (Seed(n) + n) * Factor(n) - Offset(n)
    else if n % 4 == 1 then
      if Base(n) > Threshold(n) then Base(n) - Threshold(n) else Threshold(n) - Base(n)
    else if n % 4 == 2 then SumRange(1, Limit(n)) + Offset(n)
    else LeftArg(n) * RightArg(n) + LeftArg(n) - RightArg(n)
  }

  /** `str(i)` */
  function PrintInt(i: int): string {
    if i < 0 then "-" + Print(-i) else Print(i)
  }

  // ----- the text -----

  function ValueName(n: nat): string { "rosetta_" + Padded(n) + "_value" }
  function MixName(n: nat): string { "rosetta_" + Padded(n) + "_mix" }

  function SumBody(n: nat): string {
    ("fn " + ValueName(n) + "() -> int {\n")
    + ("    let seed = " + Print(Seed(n)) + ";\n")
    + ("    let shifted = seed + " + Print(n) + ";\n")
    + ("    let scaled = shifted * " + Print(Factor(n)) + ";\n")
    + ("    let result = scaled - " + Print(Offset(n)) + ";\n")
    + "    return result;\n"
    + "}\n"
  }

  function DistanceBody(n: nat): string {
    ("fn " + ValueName(n) + "() -> int {\n")
    + ("    let base = (" + Print(Seed(n)) + " * " + Print(Factor(n)) + ") + " + Print(n) + ";\n")
    + ("    let threshold = " + Print(Threshold(n)) + ";\n")
    + "    if base > threshold {\n"
    + "        return base - threshold;\n"
    + "    } else {\n"
    + "        return threshold - base;\n"
    + "    };\n"
    + "}\n"
  }

  function LoopBody(n: nat): string {
    ("fn " + ValueName(n) + "() -> int {\n")
    + "    let total = 0;\n"
    + ("    for i in 1.." + Print(Limit(n)) + " {\n")
    + "        total = total + i;\n"
    + "    }\n"
    + ("    let result = total + " + Print(Offset(n)) + ";\n")
    + "    return result;\n"
    + "}\n"
  }

  function MixPart(n: nat): string {
    ("fn " + MixName(n) + "(left: int, right: int) -> int {\n")
    + "    let product = left * right;\n"
    + "    let result = product + left - right;\n"
    + "    return result;\n"
    + "}\n"
  }

  function CallPart(n: nat): string {
    ("fn " + ValueName(n) + "() -> int {\n")
    + ("    let result = " + MixName(n) + "(" + Print(LeftArg(n)) + ", " + Print(RightArg(n)) + ");\n")
    + "    return result;\n"
    + "}\n"
  }

  function BodyText(n: nat): string {
    if n % 4 == 0 then SumBody(n)
    else if n % 4 == 1 then DistanceBody(n)
    else if n % 4 == 2 then LoopBody(n)
    else MixPart(n) + "\n" + CallPart(n)
  }

  function MainText(n: nat): string {
    "fn main() -> int {\n"
    + ("    let result = " + ValueName(n) + "();\n")
    + "    return result;\n"
    + "};\n"
  }

  function TestTag(n: nat, name: string): string {
    "rosetta " + Padded(n) + " " + name
  }

  function TestText(n: nat, name: string): string {
    ("@test \"" + TestTag(n, name) + "\"() {\n")
    + ("    let got = " + ValueName(n) + "();\n")
    + ("    if got != " + PrintInt(Expected(n)) + " {\n")
    + ("        panic(" + Print(n) + ");\n")
    + "    };\n"
    + "};\n"
  }

  /** `str.title` on ASCII letters: the first of a run upper-case, the others lower-case. */
  function TitleCase(s: string, inWord: bool): string {
    if s == "" then "" else [Cased(s[0], inWord)] + TitleCase(s[1..], IsLetter(s[0]))
  }

  function Cased(c: char, inWord: bool): (d: char)
    ensures IsLetter(d) <==> IsLetter(c)
    ensures 'a' <= d <= 'z' ==> inWord
    ensures !IsLetter(c) ==> d == c
  {
    if 'a' <= c <= 'z' && !inWord then ((c as int) - 32) as char
    else if 'A' <= c <= 'Z' && inWord then ((c as int) + 32) as char
    else c
  }

  /** What follows the first underscore, if there is one. */
  function AfterUnderscore(name: string): string {
    var k := Find(name, '_');
    if k == |name| then "" else name[k + 1..]
  }

  /** `title_from_name` */
  function Title(name: string): string {
    var number := match DemoNumber(name) case Some(n) => n case None => 0;
    Padded(number) + " " + TitleCase(Replace(AfterUnderscore(name), "_", " "), false)
  }

  function TitleComment(name: string): string {
    " Sla companion for SA rosetta demo " + Title(name) + "."
  }

  // In two pieces, short enough to reason about their characters.
  const ORIGIN_COMMENT := " Generated from the catalog name; " + "Rust reference lives in main.rs."

  function HeadText(name: string): string {
    "//" + TitleComment(name) + "\n" + ("//" + ORIGIN_COMMENT + "\n") + "\n"
  }

  /** `sla_source`; a name without a number raises ValueError. */
  function SlaSource(name: string): Option<string> {
    match DemoNumber(name)
    case None => None
    case Some(n) => Some(HeadText(name) + (BodyText(n) + ("\n" + (MainText(n) + ("\n" + TestText(n, name))))))
  }

  // ----- the program that the text stands for -----

  function ValueFn(n: nat, body: seq<Stmt>): Decl {
    Fn(ValueName(n), [], body, false)
  }

  function SumStmts(n: nat): seq<Stmt> {
    [Let("seed", Num(Seed(n))),
     Let("shifted", Bin(Add, Var("seed"), Num(n))),
     Let("scaled", Bin(Mul, Var("shifted"), Num(Factor(n)))),
     Let("result", Bin(Sub, Var("scaled"), Num(Offset(n)))),
     Return(Var("result"))]
  }

  function DistanceStmts(n: nat): seq<Stmt> {
    [Let("base", Bin(Add, Group(Bin(Mul, Num(Seed(n)), Num(Factor(n)))), Num(n))),
     Let("threshold", Num(Threshold(n))),
     If(Bin(Gt, Var("base"), Var("threshold")),
        [Return(Bin(Sub, Var("base"), Var("threshold")))],
        [Return(Bin(Sub, Var("threshold"), Var("base")))], true)]
  }

  function LoopStmts(n: nat): seq<Stmt> {
    [Let("total", Num(0)),
     For("i", Num(1), Num(Limit(n)), [Assign("total", Bin(Add, Var("total"), Var("i")))]),
     Let("result", Bin(Add, Var("total"), Num(Offset(n)))),
     Return(Var("result"))]
  }

  function MixStmts(): seq<Stmt> {
    [Let("product", Bin(Mul, Var("left"), Var("right"))),
     Let("result", Bin(Sub, Bin(Add, Var("product"), Var("left")), Var("right"))),
     Return(Var("result"))]
  }

  function CallStmts(n: nat): seq<Stmt> {
    [Let("result", Call(MixName(n), [Num(LeftArg(n)), Num(RightArg(n))])),
     Return(Var("result"))]
  }

  function Functions(n: nat): seq<Decl> {
    if n % 4 == 0 then [ValueFn(n, SumStmts(n))]
    else if n % 4 == 1 then [ValueFn(n, DistanceStmts(n))]
    else if n % 4 == 2 then [ValueFn(n, LoopStmts(n))]
    else [Fn(MixName(n), ["left", "right"], MixStmts(), false), ValueFn(n, CallStmts(n))]
  }

  function MainFn(n: nat): Decl {
    Fn("main", [], [Let("result", Call(ValueName(n), [])), Return(Var("result"))], true)
  }

  function TestStmts(n: nat, expected: nat): seq<Stmt> {
    [Let("got", Call(ValueName(n), [])),
     If(Bin(Ne, Var("got"), Num(expected)), [Do(Call("panic", [Num(n)]))], [], false)]
  }

  function Program(n: nat, name: string, expected: nat): seq<Decl> {
    Functions(n) + [MainFn(n), Test(TestTag(n, name), TestStmts(n, expected), true)]
  }
}
