/** Catalogue directory names: a number, an underscore, the rest. */
module DemoName {
  import opened Tsv
  import opened Decimal

  /** The end of the run of digits that starts at `i`. */
  function RunEnd(name: string, i: nat): (j: nat)
    requires i <= |name|
    ensures i <= j <= |name|
    ensures forall k :: i <= k < j ==> IsDigit(name[k])
    ensures j < |name| ==> !IsDigit(name[j])
    decreases |name| - i
  {
    if i < |name| && IsDigit(name[i]) then RunEnd(name, i + 1) else i
  }

  function ZeroRun(name: string): (k: nat)
    ensures k <= |name|
    ensures forall i :: 0 <= i < k ==> name[i] == '0'
    ensures k < |name| ==> name[k] != '0'
  {
    if name != "" && name[0] == '0' then 1 + ZeroRun(name[1..]) else 0
  }

  /** `(\d+)_` with the group starting at `i`, trying ends from `j` downwards. */
  function MatchDigits(name: string, i: nat, j: nat): Option<string>
    requires i <= j <= |name|
    decreases j
  {
    if j == i then None
    else if j < |name| && name[j] == '_' then Some(name[i..j])
    else MatchDigits(name, i, j - 1)
  }

  /** `0*(\d+)_` with `0*` taking `k` zeros, and giving them back one by one. */
  function MatchZeros(name: string, k: nat): Option<string>
    requires k <= |name|
    decreases k
  {
    match MatchDigits(name, k, RunEnd(name, k))
    case Some(group) => Some(group)
    case None => if k == 0 then None else MatchZeros(name, k - 1)
  }

  lemma {:induction false} MatchDigitsOnlyAtEnd(name: string, i: nat, j: nat)
    requires i <= |name| && i <= j <= RunEnd(name, i)
    ensures MatchDigits(name, i, j) ==
      if i < j && j == RunEnd(name, i) && j < |name| && name[j] == '_' then Some(name[i..j]) else None
    decreases j
  {
    if i < j {
      assert j - 1 >= i ==> IsDigit(name[j - 1]);
      MatchDigitsOnlyAtEnd(name, i, j - 1);
    }
  }

  lemma {:induction false} RunEndShared(name: string, i: nat)
    requires i <= RunEnd(name, 0)
    ensures RunEnd(name, i) == RunEnd(name, 0)
  {
  }

  /** The group the search settles on: greedy zeros, less one when the run is all zeros. */
  lemma {:induction false} MatchZerosResult(name: string, k: nat)
    requires k <= ZeroRun(name) && k <= RunEnd(name, 0)
    ensures var e := RunEnd(name, 0);
      MatchZeros(name, k) ==
      if e == 0 || e == |name| || name[e] != '_' then None
      else if k < e then Some(name[k..e]) else Some(name[e - 1..e])
    decreases k
  {
    var e := RunEnd(name, 0);
    RunEndShared(name, k);
    MatchDigitsOnlyAtEnd(name, k, e);
    if k > 0 {
      MatchZerosResult(name, k - 1);
    }
  }

  /** A slice of the leading run. */
  lemma SliceDigits(name: string, i: nat, e: nat)
    requires i <= e <= RunEnd(name, 0)
    ensures AllDigits(name[i..e])
  {
  }

  /** `demo_number` */
  function DemoNumber(name: string): Option<nat> {
    match MatchZeros(name, ZeroRun(name))
    case Some(group) =>
      assert AllDigits(group) by {
        ZeroRunInRun(name);
        MatchZerosResult(name, ZeroRun(name));
        var e, k := RunEnd(name, 0), ZeroRun(name);
        SliceDigits(name, if k < e then k else e - 1, e);
      }
      Some(Value(group))
    case None => None
  }

  lemma ZeroRunInRun(name: string)
    ensures ZeroRun(name) <= RunEnd(name, 0)
  {
    assert RunEnd(name, 0) < |name| ==> !IsDigit(name[RunEnd(name, 0)]);
  }

  /** A name has a number exactly when a leading run of digits is followed by an underscore, and then it is the value
      of the whole run. */
  lemma DemoNumberMeaning(name: string)
    ensures var e := RunEnd(name, 0);
      && AllDigits(name[..e])
      && DemoNumber(name) == if 0 < e < |name| && name[e] == '_' then Some(Value(name[..e])) else None
  {
    var e, k := RunEnd(name, 0), ZeroRun(name);
    ZeroRunInRun(name);
    MatchZerosResult(name, k);
    SliceDigits(name, 0, e);
    if 0 < e < |name| && name[e] == '_' {
      var z := if k < e then k else e - 1;
      SliceDigits(name, z, e);
      assert name[..e] == Zeros(z) + name[z..e];
      ValueZeros(z, name[z..e]);
    }
  }

  lemma RunEndUnique(name: string, e: nat)
    requires e <= |name| && (forall k :: 0 <= k < e ==> IsDigit(name[k])) && (e < |name| ==> !IsDigit(name[e]))
    ensures RunEnd(name, 0) == e
  {
  }

  /** Reading undoes printing, for every number, any padding and any rest. */
  lemma DemoNumberOfPrinted(zeros: nat, n: nat, rest: string)
    ensures DemoNumber(Zeros(zeros) + Print(n) + "_" + rest) == Some(n)
  {
    var digits := Zeros(zeros) + Print(n);
    var name := digits + "_" + rest;
    forall k | 0 <= k < |digits| ensures IsDigit(name[k]) {
      assert name[k] == digits[k] && digits[k] in digits;
    }
    assert name[|digits|] == '_';
    RunEndUnique(name, |digits|);
    assert name[..|digits|] == digits;
    DemoNumberMeaning(name);
    ValueZeros(zeros, Print(n));
    ValuePrint(n);
  }

  lemma DemoNumberOfPadded(n: nat, rest: string)
    ensures DemoNumber(Padded(n) + "_" + rest) == Some(n)
  {
    var k := PaddedForm(n);
    DemoNumberOfPrinted(k, n, rest);
  }
}
