/** Decimal notation, and the zero-padded form the generator uses in names. */
module Decimal {

  predicate IsDigit(c: char) {
    '0' <= c <= '9'
  }

  predicate AllDigits(s: string) {
    forall c :: c in s ==> IsDigit(c)
  }

  function Digit(d: nat): (c: char)
    requires d < 10
    ensures IsDigit(c)
  {
    (('0' as int) + d) as char
  }

  /** `str(n)` */
  function Print(n: nat): (s: string)
    ensures s != "" && AllDigits(s)
    ensures n > 0 ==> s[0] != '0'
    ensures n == 0 ==> s == "0"
  {
    if n < 10 then [Digit(n)] else Print(n / 10) + [Digit(n % 10)]
  }

  /** `int(s)` */
  function Value(s: string): nat
    requires AllDigits(s)
  {
    if s == "" then 0
    else
      var n := |s| - 1;
      assert s[n] in s && forall c :: c in s[..n] ==> c in s;
      Value(s[..n]) * 10 + (s[n] as int - '0' as int)
  }

  lemma {:induction false} ValuePrint(n: nat)
    ensures Value(Print(n)) == n
  {
    if n >= 10 {
      var s := Print(n);
      assert s[..|s| - 1] == Print(n / 10);
      ValuePrint(n / 10);
    } else {
      assert Print(n)[..0] == "";
    }
  }

  function Zeros(k: nat): (s: string)
    ensures |s| == k && AllDigits(s)
    ensures forall i :: 0 <= i < k ==> s[i] == '0'
  {
    seq(k, _ => '0')
  }

  lemma {:induction false} ValueZeros(k: nat, s: string)
    requires AllDigits(s)
    ensures AllDigits(Zeros(k) + s)
    ensures Value(Zeros(k) + s) == Value(s)
    decreases |s|, k
  {
    var t := Zeros(k) + s;
    if s != "" {
      assert t[..|t| - 1] == Zeros(k) + s[..|s| - 1];
      assert forall c :: c in s[..|s| - 1] ==> c in s;
      ValueZeros(k, s[..|s| - 1]);
    } else if k > 0 {
      assert t[..|t| - 1] == Zeros(k - 1) + s;
      ValueZeros(k - 1, s);
    } else {
      assert t == s;
    }
  }

  /** `f"{n:03d}"` */
  function Padded(n: nat): (s: string)
    ensures |s| >= 3 && AllDigits(s)
  {
    if |Print(n)| >= 3 then Print(n) else Zeros(3 - |Print(n)|) + Print(n)
  }

  lemma {:induction false} PrintLength(n: nat)
    ensures |Print(n)| <= 3 <==> n < 1000
    ensures |Print(n)| <= 2 <==> n < 100
    ensures |Print(n)| == 1 <==> n < 10
  {
    if n >= 10 {
      PrintLength(n / 10);
    }
  }

  /** Decimal digits with zeros in front of them up to three characters, and none beyond. */
  ghost predicate ThreeDigits(s: string, n: nat) {
    && AllDigits(s) && Value(s) == n
    && |s| == (if n < 1000 then 3 else |Print(n)|)
    && |Print(n)| <= |s| && Print(n) == s[|s| - |Print(n)|..]
    && forall i :: 0 <= i < |s| - |Print(n)| ==> s[i] == '0'
  }

  lemma PaddedExact(n: nat)
    ensures ThreeDigits(Padded(n), n)
  {
    PrintLength(n);
    var k := PaddedForm(n);
  }

  lemma PaddedForm(n: nat) returns (k: nat)
    ensures Padded(n) == Zeros(k) + Print(n)
    ensures Value(Padded(n)) == n
  {
    k := if |Print(n)| >= 3 then 0 else 3 - |Print(n)|;
    assert Padded(n) == Zeros(k) + Print(n);
    ValueZeros(k, Print(n));
    ValuePrint(n);
  }

  /** Padding never confuses two numbers. */
  lemma PaddedInjective(n: nat, m: nat)
    requires Padded(n) == Padded(m)
    ensures n == m
  {
    var k := PaddedForm(n);
    var j := PaddedForm(m);
  }
}
