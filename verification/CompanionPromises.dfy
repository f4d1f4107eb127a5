/** What a companion is called, what it computes and what its test is good for, in the terms of the catalogue. */
module CompanionPromises {
  import opened Strings
  import opened Tsv
  import opened Decimal
  import opened DemoName
  import opened SlaSyntax
  import opened SlaLexer
  import opened SlaParser
  import opened SlaEval
  import opened Rosetta
  import opened RosettaRuns
  import opened Companion

  // ----- the value -----

  /** The number that the value function must return, from the catalogue number alone. */
  ghost function ValueOf(n: nat): int {
    var seed, factor, offset := n % 17 + 3, n % 9 + 2, n % 23 + 5;
    if n % 4 == 0 then (seed + n) * factor - offset
    else if n % 4 == 1 then
      var d := seed * factor + n - (n + offset);
      if d < 0 then -d else d
    else if n % 4 == 2 then
      var last := n % 8 + 2;
      last * (last + 1) / 2 + offset
    else
      var left, right := seed + n % 11, factor + offset;
      left * right + left - right
  }

  /** The sum of the numbers from 1 on. */
  lemma {:induction false} Gauss(hi: nat)
    requires hi >= 1
    ensures 2 * SumRange(1, hi) == (hi - 1) * hi
  {
    if hi > 1 {
      Gauss(hi - 1);
      assert (hi - 2) * (hi - 1) + 2 * (hi - 1) == (hi - 1) * hi;
    }
  }

  lemma ExpectedIs(n: nat)
    ensures Expected(n) == ValueOf(n)
  {
    if n % 4 == 2 {
      Gauss(Limit(n));
      assert (Limit(n) - 1) * Limit(n) == (n % 8 + 2) * (n % 8 + 3);
    }
  }

  // ----- the names -----

  /** What a declaration is called, and whether it is a test. */
  function Label(d: Decl): (bool, string) {
    match d case Fn(name, _, _, _) => (false, name) case Test(tag, _, _) => (true, tag)
  }

  /** The declarations of a companion: the functions, `main` and the test, called after the number in three digits. */
  ghost predicate CalledAfter(prog: seq<Decl>, n: nat, digits: string, name: string) {
    && ThreeDigits(digits, n)
    && var k := if n % 4 == 3 then 1 else 0;
       && |prog| == k + 3
       && (n % 4 == 3 ==> Label(prog[0]) == (false, "rosetta_" + digits + "_mix"))
       && Label(prog[k]) == (false, "rosetta_" + digits + "_value")
       && Label(prog[k + 1]) == (false, "main")
       && Label(prog[k + 2]) == (true, "rosetta " + digits + " " + name)
  }

  lemma CompanionCalled(prog: seq<Decl>, n: nat, name: string, expected: nat)
    requires IsCompanion(prog, n, TestTag(n, name), expected)
    ensures CalledAfter(prog, n, Padded(n), name)
  {
    PaddedExact(n);
  }

  // ----- from the text -----

  /** The text is that of a program with these names, whose `main` returns the value and whose test passes. */
  ghost predicate Computes(text: string, n: nat, name: string, max: nat) {
    var parsed := ParseProgram(Lex(text), max);
    && parsed.Done? && parsed.rest == []
    && (exists digits :: CalledAfter(parsed.value, n, digits, name))
    && MainReturnsValue(parsed.value, n, max)
    && Check(text, max) == Ran(Passed)
  }

  ghost predicate MainReturnsValue(prog: seq<Decl>, n: nat, max: nat) {
    var main := FindFn(prog, "main");
    main < |prog| && Run(prog, prog[main].body, [], |prog|, max) == Returned(ValueOf(n))
  }

  lemma FindMain(prog: seq<Decl>, n: nat, tag: string, expected: nat)
    requires IsCompanion(prog, n, tag, expected)
    ensures var k := if n % 4 == 3 then 1 else 0; FindFn(prog, "main") == k + 1
  {
    GeneratedNames(n);
    LongNames(n);
    var k := if n % 4 == 3 then 1 else 0;
    var i := FindFn(prog, "main");
    assert prog[k + 1].name == "main";
    assert prog[k].name == ValueName(n) && (k == 1 ==> prog[0].name == MixName(n));
  }

  lemma LongNames(n: nat)
    ensures |ValueName(n)| > 4 && |MixName(n)| > 4
  {
  }

  /** A name that can be carried gives a text that does what the catalogue number says, on every width that holds its
      largest integer. */
  lemma CompanionComputes(name: string, n: nat, max: nat)
    requires DemoNumber(name) == Some(n) && Carries(name) && Peak(n) <= max
    ensures SlaSource(name).Some? && Computes(SlaSource(name).value, n, name, max)
  {
    ParsedSource(name, n, max);
    var expected := Expected(n);
    FitsWhole(n, name, expected, max);
    ParsedProgram(n, name, expected);
    var prog := BareProgram(Program(n, name, expected));
    CompanionCalled(prog, n, name, expected);
    FindMain(prog, n, TestTag(n, name), expected);
    MainReturns(prog, n, TestTag(n, name), expected, max);
    ExpectedIs(n);
    CompanionPasses(name, n, max);
  }

  // ----- a test that can fail -----

  lemma GuardValue(prog: seq<Decl>, n: nat, got: nat, expected: nat, env: Env, max: nat)
    requires env == [("got", got as int)] && got != expected && expected <= max && n <= max
    ensures Step(prog, TestStmts(n, expected)[1], env, |prog|, max) == Panicked(n)
  {
    var guard := Bin(Ne, Var("got"), Num(expected));
    var panic := Do(Call("panic", [Num(n)]));
    FindSame([], "got", got);
    assert [] + [("got", got as int)] == env;
    assert Eval(prog, Var("got"), env, |prog|, max) == Yield(got);
    assert Eval(prog, Num(expected), env, |prog|, max) == Yield(expected);
    assert Eval(prog, guard, env, |prog|, max) == Yield(1);
    PanicRuns(prog, n, env, max);
    assert TestStmts(n, expected)[1] == If(guard, [panic], [], false);
  }

  lemma PanicRuns(prog: seq<Decl>, n: nat, env: Env, max: nat)
    requires n <= max
    ensures Run(prog, [Do(Call("panic", [Num(n)]))], env, |prog|, max) == Panicked(n)
  {
    var args := [Num(n)];
    assert args[1..] == [];
    assert Eval(prog, Num(n), env, |prog|, max) == Yield(n);
    assert EvalAll(prog, args, env, |prog|, max) == Ints([n as int]);
    assert Eval(prog, Call("panic", args), env, |prog|, max) == Panic(n);
    assert [Do(Call("panic", args))][1..] == [];
  }

  lemma WrongBody(prog: seq<Decl>, n: nat, tag: string, expected: nat, max: nat)
    requires IsCompanion(prog, n, tag, expected) && expected != Expected(n) && expected <= max && Peak(n) <= max
    ensures Run(prog, TestStmts(n, expected), [], |prog|, max) == Panicked(n)
  {
    var s := TestStmts(n, expected);
    CallValue(prog, n, tag, expected, [], max);
    ExpectedIsNatural(n);
    assert s == [s[0]] + [s[1]];
    RunLet(prog, "got", Call(ValueName(n), []), [s[1]], [], |prog|, max);
    var env: Env := [("got", Expected(n))];
    assert [] + [("got", Expected(n))] == env;
    RunOne(prog, s[1], [], env, |prog|, max);
    assert [s[1]] + [] == [s[1]];
    GuardValue(prog, n, Expected(n), expected, env, max);
  }

  /** Had Python printed any other number into the test, the test would fail, with the catalogue number as its code. */
  lemma WrongNumberFails(prog: seq<Decl>, n: nat, tag: string, expected: nat, max: nat)
    requires IsCompanion(prog, n, tag, expected) && expected <= max && Peak(n) <= max
    ensures RunTests(prog, prog, max) == if expected == ValueOf(n) then Passed else Failed(n)
  {
    ExpectedIs(n);
    if expected == Expected(n) {
      RunCompanion(prog, n, tag, expected, max);
    } else {
      var k := |prog| - 1;
      SkipFns(prog, prog, k, max);
      assert prog[k..][0] == prog[k] && prog[k..][1..] == [];
      WrongBody(prog, n, tag, expected, max);
    }
  }

  // ----- the title -----

  /** A character of the directory name as it stands in the title: underscores become blanks, a letter is upper-case
      unless a letter comes before it. */
  ghost predicate TitledAs(c: char, afterLetter: bool, d: char) {
    if c == '_' then d == ' '
    else if 'a' <= c <= 'z' && !afterLetter then d as int == c as int - 32
    else if 'A' <= c <= 'Z' && afterLetter then d as int == c as int + 32
    else d == c
  }

  ghost predicate IsTitle(rest: string, title: string) {
    |title| == |rest| && forall i :: 0 <= i < |rest| ==> TitledAs(rest[i], i > 0 && IsLetter(rest[i - 1]), title[i])
  }

  lemma {:induction false} Spaced(s: string)
    ensures |Replace(s, "_", " ")| == |s|
    ensures forall i :: 0 <= i < |s| ==> Replace(s, "_", " ")[i] == if s[i] == '_' then ' ' else s[i]
  {
    if s != "" {
      assert "_" <= s <==> s[0] == '_';
      Spaced(s[1..]);
      var t := Replace(s[1..], "_", " ");
      assert Replace(s, "_", " ") == [if s[0] == '_' then ' ' else s[0]] + t;
    }
  }

  lemma {:induction false} TitleCased(s: string, inWord: bool)
    ensures |TitleCase(s, inWord)| == |s|
    ensures forall i :: 0 <= i < |s| ==>
      TitleCase(s, inWord)[i] == Cased(s[i], if i == 0 then inWord else IsLetter(s[i - 1]))
  {
    if s != "" {
      TitleCased(s[1..], IsLetter(s[0]));
      var t := TitleCase(s[1..], IsLetter(s[0]));
      forall i | 0 <= i < |s|
        ensures TitleCase(s, inWord)[i] == Cased(s[i], if i == 0 then inWord else IsLetter(s[i - 1]))
      {
        if i > 0 {
          assert TitleCase(s, inWord)[i] == t[i - 1] && s[1..][i - 1] == s[i];
          assert i > 1 ==> s[1..][i - 2] == s[i - 1];
        }
      }
    }
  }

  lemma CasedAs(c: char, afterLetter: bool, d: char)
    requires d == Cased(if c == '_' then ' ' else c, afterLetter)
    ensures TitledAs(c, afterLetter, d)
  {
  }

  lemma TitleIs(rest: string, spaced: string, title: string)
    requires |spaced| == |rest| && forall i :: 0 <= i < |rest| ==> spaced[i] == if rest[i] == '_' then ' ' else rest[i]
    requires |title| == |spaced|
    requires forall i :: 0 <= i < |spaced| ==> title[i] == Cased(spaced[i], if i == 0 then false else IsLetter(spaced[i - 1]))
    ensures IsTitle(rest, title)
  {
    forall i | 0 <= i < |rest| ensures TitledAs(rest[i], i > 0 && IsLetter(rest[i - 1]), title[i]) {
      assert i > 0 ==> IsLetter(spaced[i - 1]) == IsLetter(rest[i - 1]);
      CasedAs(rest[i], i > 0 && IsLetter(rest[i - 1]), title[i]);
    }
  }

  /** The comments of the text: the number in three digits and the rest of the name as a title, then the fixed line. */
  ghost predicate Headed(text: string, n: nat, rest: string) {
    exists digits, title, more ::
      ThreeDigits(digits, n) && IsTitle(rest, title)
      && text == "// Sla companion for SA rosetta demo " + (digits + " " + title) + ".\n" + (SecondComment() + more)
  }

  ghost function SecondComment(): string {
    "//" + (" Generated from the catalog name; " + "Rust reference lives in main.rs.") + "\n" + "\n"
  }

  lemma RestOfName(digits: string, rest: string)
    requires AllDigits(digits)
    ensures AfterUnderscore(digits + "_" + rest) == rest
  {
    var name := digits + "_" + rest;
    assert name[|digits|] == '_';
    forall i | 0 <= i < |digits| ensures name[i] != '_' {
      assert name[i] == digits[i] && digits[i] in digits;
    }
    assert Strings.Find(name, '_') == |digits|;
    assert name[|digits| + 1..] == rest;
  }

  lemma HeadParts(title: string, second: string, below: string)
    ensures "//" + (" Sla companion for SA rosetta demo " + title + ".") + "\n" + ("//" + second + "\n") + "\n" + below
         == "// Sla companion for SA rosetta demo " + title + ".\n" + (("//" + second + "\n" + "\n") + below)
  {
    assert "//" + (" Sla companion for SA rosetta demo " + title + ".") == "// Sla companion for SA rosetta demo " + title + ".";
    assert "." + "\n" == ".\n";
  }

  lemma TitleOfName(digits: string, rest: string, n: nat) returns (title: string)
    requires AllDigits(digits) && DemoNumber(digits + "_" + rest) == Some(n)
    ensures Title(digits + "_" + rest) == Padded(n) + " " + title && IsTitle(rest, title)
  {
    RestOfName(digits, rest);
    Spaced(rest);
    TitleCased(Replace(rest, "_", " "), false);
    title := TitleCase(Replace(rest, "_", " "), false);
    TitleIs(rest, Replace(rest, "_", " "), title);
  }

  lemma HeadIs(name: string, n: nat, rest: string, title: string)
    requires DemoNumber(name) == Some(n) && Title(name) == Padded(n) + " " + title && IsTitle(rest, title)
    ensures SlaSource(name).Some? && Headed(SlaSource(name).value, n, rest)
  {
    PaddedExact(n);
    var below := BodyText(n) + ("\n" + (MainText(n) + ("\n" + TestText(n, name))));
    HeadParts(Title(name), ORIGIN_COMMENT, below);
    HeadedBy(SlaSource(name).value, n, rest, Padded(n), title, below);
  }

  lemma HeadedBy(text: string, n: nat, rest: string, digits: string, title: string, more: string)
    requires ThreeDigits(digits, n) && IsTitle(rest, title)
    requires text == "// Sla companion for SA rosetta demo " + (digits + " " + title) + ".\n" + (SecondComment() + more)
    ensures Headed(text, n, rest)
  {
  }

  /** The text opens with a comment that names the demo: the number in three digits, and the rest of the name as a title. */
  lemma SourceHeaded(digits: string, rest: string)
    requires digits != "" && AllDigits(digits)
    ensures var name := digits + "_" + rest;
      && DemoNumber(name) == Some(Decimal.Value(digits))
      && SlaSource(name).Some? && Headed(SlaSource(name).value, Decimal.Value(digits), rest)
  {
    var n := Decimal.Value(digits);
    NumberInFront(digits, rest);
    var title := TitleOfName(digits, rest, n);
    HeadIs(digits + "_" + rest, n, rest, title);
  }

  lemma NumberInFront(digits: string, rest: string)
    requires digits != "" && AllDigits(digits)
    ensures DemoNumber(digits + "_" + rest) == Some(Decimal.Value(digits))
  {
    var name := digits + "_" + rest;
    forall k | 0 <= k < |digits| ensures IsDigit(name[k]) {
      assert name[k] == digits[k] && digits[k] in digits;
    }
    assert name[|digits|] == '_';
    RunEndUnique(name, |digits|);
    assert name[..|digits|] == digits;
    DemoNumberMeaning(name);
  }
}
