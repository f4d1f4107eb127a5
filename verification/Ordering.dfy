/** Sorting, and the order in which Python compares strings. */
module Ordering {
  import opened Strings

  /** `a <= b` on Python strings: lexicographic by code point. */
  predicate Below(a: string, b: string) {
    a == "" || (b != "" && (a[0] < b[0] || (a[0] == b[0] && Below(a[1..], b[1..]))))
  }

  /** The alphabet's order: `a` begins `b`, or has the smaller character where the two first differ. */
  ghost predicate Precedes(a: string, b: string) {
    a <= b || exists i :: 0 <= i < |a| && i < |b| && DifferAt(a, b, i) && a[i] < b[i]
  }

  /** The two agree before `i`. */
  ghost predicate DifferAt(a: string, b: string, i: nat)
    requires i <= |a| && i <= |b|
  {
    a[..i] == b[..i]
  }

  lemma BelowTail(c: char, a: string, b: string)
    requires Precedes(a, b)
    ensures Precedes([c] + a, [c] + b)
  {
    if i :| 0 <= i < |a| && i < |b| && DifferAt(a, b, i) && a[i] < b[i] {
      assert ([c] + a)[..i + 1] == [c] + a[..i] && ([c] + b)[..i + 1] == [c] + b[..i];
      assert DifferAt([c] + a, [c] + b, i + 1);
    }
  }

  lemma PrecedesTail(a: string, b: string)
    requires Precedes(a, b) && a != "" && b != "" && a[0] == b[0]
    ensures Precedes(a[1..], b[1..])
  {
    if i :| 0 <= i < |a| && i < |b| && DifferAt(a, b, i) && a[i] < b[i] {
      assert a[1..][..i - 1] == a[..i][1..] && b[1..][..i - 1] == b[..i][1..];
      assert DifferAt(a[1..], b[1..], i - 1);
    }
  }

  lemma PrecedesHead(a: string, b: string)
    requires Precedes(a, b) && a != ""
    ensures b != "" && a[0] <= b[0]
  {
    if i :| 0 <= i < |a| && i < |b| && DifferAt(a, b, i) && a[i] < b[i] {
      assert i > 0 ==> a[..i][0] == b[..i][0];
    }
  }

  /** Python's comparison is the order of the alphabet. */
  lemma {:induction false} BelowMeaning(a: string, b: string)
    ensures Below(a, b) <==> Precedes(a, b)
  {
    if a != "" {
      if Precedes(a, b) {
        PrecedesHead(a, b);
      }
      if b != "" && a[0] < b[0] {
        assert DifferAt(a, b, 0);
      } else if b != "" && a[0] == b[0] {
        BelowMeaning(a[1..], b[1..]);
        assert a == [a[0]] + a[1..] && b == [b[0]] + b[1..];
        if Precedes(a, b) {
          PrecedesTail(a, b);
        } else if Below(a, b) {
          BelowTail(a[0], a[1..], b[1..]);
        }
      }
    }
  }

  lemma {:induction false} BelowReflexive(a: string)
    ensures Below(a, a)
  {
    if a != "" {
      BelowReflexive(a[1..]);
    }
  }

  lemma {:induction false} BelowAntisymmetric(a: string, b: string)
    requires Below(a, b) && Below(b, a)
    ensures a == b
  {
    if a != "" && b != "" {
      BelowAntisymmetric(a[1..], b[1..]);
      assert a == [a[0]] + a[1..];
      assert b == [b[0]] + b[1..];
    }
  }

  lemma {:induction false} BelowTransitive(a: string, b: string, c: string)
    requires Below(a, b) && Below(b, c)
    ensures Below(a, c)
  {
    if a != "" && a[0] == b[0] == c[0] {
      BelowTransitive(a[1..], b[1..], c[1..]);
    }
  }

  lemma {:induction false} BelowTotal(a: string, b: string)
    ensures Below(a, b) || Below(b, a)
  {
    if a != "" && b != "" && a[0] == b[0] {
      BelowTotal(a[1..], b[1..]);
    }
  }

  /** The strings with a given prefix are an interval of the order. */
  lemma {:induction false} PrefixInterval(p: string, a: string, b: string, c: string)
    requires Below(a, b) && Below(b, c)
    requires p <= a && p <= c
    ensures p <= b
  {
    if p != "" {
      assert a[0] == p[0] && c[0] == p[0];
      assert b[0] == p[0];
      PrefixInterval(p[1..], a[1..], b[1..], c[1..]);
      assert p == [p[0]] + p[1..];
      assert b == [b[0]] + b[1..];
    }
  }

  /** Tuples of two strings, as Python compares them. */
  predicate PairBelow(p: (string, string), q: (string, string)) {
    if p.0 == q.0 then Below(p.1, q.1) else Below(p.0, q.0)
  }

  /** The order of the pairs: by the first string, and among equal first strings by the second. */
  ghost predicate PairPrecedes(p: (string, string), q: (string, string)) {
    (p.0 != q.0 && Precedes(p.0, q.0)) || (p.0 == q.0 && Precedes(p.1, q.1))
  }

  lemma PairBelowMeaning(p: (string, string), q: (string, string))
    ensures PairBelow(p, q) <==> PairPrecedes(p, q)
  {
    BelowMeaning(p.0, q.0);
    BelowMeaning(p.1, q.1);
  }

  ghost predicate Preorder<T(!new)>(le: (T, T) -> bool) {
    && (forall x, y :: le(x, y) || le(y, x))
    && (forall x, y, z :: le(x, y) && le(y, z) ==> le(x, z))
  }

  /** Distinct members of `xs` are never tied. */
  ghost predicate TieFree<T>(xs: seq<T>, le: (T, T) -> bool) {
    forall x, y :: x in xs && y in xs && le(x, y) && le(y, x) ==> x == y
  }

  lemma BelowPreorder(xs: seq<string>)
    ensures Preorder(Below) && TieFree(xs, Below)
  {
    forall a, b ensures Below(a, b) || Below(b, a) { BelowTotal(a, b); }
    forall a, b, c | Below(a, b) && Below(b, c) ensures Below(a, c) { BelowTransitive(a, b, c); }
    forall a, b | Below(a, b) && Below(b, a) ensures a == b { BelowAntisymmetric(a, b); }
  }

  lemma PairBelowPreorder(xs: seq<(string, string)>)
    ensures Preorder(PairBelow) && TieFree(xs, PairBelow)
  {
    forall p, q ensures PairBelow(p, q) || PairBelow(q, p) {
      BelowTotal(p.0, q.0);
      BelowTotal(p.1, q.1);
    }
    forall p, q, r | PairBelow(p, q) && PairBelow(q, r) ensures PairBelow(p, r) {
      if p.0 == q.0 == r.0 {
        BelowTransitive(p.1, q.1, r.1);
      } else if p.0 != q.0 && q.0 != r.0 {
        BelowTransitive(p.0, q.0, r.0);
        if p.0 == r.0 {
          BelowAntisymmetric(p.0, q.0);
        }
      }
    }
    forall p, q | PairBelow(p, q) && PairBelow(q, p) ensures p == q {
      if p.0 == q.0 {
        BelowAntisymmetric(p.1, q.1);
      } else {
        BelowAntisymmetric(p.0, q.0);
      }
    }
  }

  ghost predicate SortedBy<T>(xs: seq<T>, le: (T, T) -> bool) {
    forall i, j :: 0 <= i < j < |xs| ==> le(xs[i], xs[j])
  }

  function Insert<T>(x: T, xs: seq<T>, le: (T, T) -> bool): seq<T> {
    if xs == [] || le(x, xs[0]) then [x] + xs else [xs[0]] + Insert(x, xs[1..], le)
  }

  /** `sorted(xs)`: the stable sort. */
  function Sort<T>(xs: seq<T>, le: (T, T) -> bool): seq<T> {
    if xs == [] then [] else Insert(xs[0], Sort(xs[1..], le), le)
  }

  lemma {:induction false} InsertCorrect<T(!new)>(x: T, xs: seq<T>, le: (T, T) -> bool)
    requires Preorder(le) && SortedBy(xs, le)
    ensures multiset(Insert(x, xs, le)) == multiset{x} + multiset(xs)
    ensures SortedBy(Insert(x, xs, le), le)
  {
    if xs != [] && !le(x, xs[0]) {
      InsertCorrect(x, xs[1..], le);
      var tail := Insert(x, xs[1..], le);
      assert xs == [xs[0]] + xs[1..];
      forall y | y in tail ensures le(xs[0], y) {
        assert y in multiset(tail);
        assert y == x || y in xs[1..];
      }
    }
  }

  lemma {:induction false} SortCorrect<T(!new)>(xs: seq<T>, le: (T, T) -> bool)
    requires Preorder(le)
    ensures multiset(Sort(xs, le)) == multiset(xs)
    ensures SortedBy(Sort(xs, le), le)
  {
    if xs != [] {
      SortCorrect(xs[1..], le);
      InsertCorrect(xs[0], Sort(xs[1..], le), le);
      assert xs == [xs[0]] + xs[1..];
    }
  }

  lemma SortMembers<T(!new)>(xs: seq<T>, le: (T, T) -> bool)
    requires Preorder(le)
    ensures |Sort(xs, le)| == |xs|
    ensures forall x :: x in Sort(xs, le) <==> x in xs
  {
    SortCorrect(xs, le);
    assert |multiset(Sort(xs, le))| == |multiset(xs)|;
    forall x ensures x in Sort(xs, le) <==> x in xs {
      assert x in multiset(Sort(xs, le)) <==> x in multiset(xs);
    }
  }

  lemma {:induction false} InsertStable<T(!new)>(x: T, xs: seq<T>, le: (T, T) -> bool, keep: T -> bool)
    requires forall a, b :: keep(a) && keep(b) ==> le(a, b)
    ensures Filter(Insert(x, xs, le), keep) == Filter([x] + xs, keep)
  {
    assert ([x] + xs)[1..] == xs;
    if xs != [] && !le(x, xs[0]) {
      InsertStable(x, xs[1..], le, keep);
      var tail := Insert(x, xs[1..], le);
      assert ([xs[0]] + tail)[1..] == tail && ([x] + xs[1..])[1..] == xs[1..];
    }
  }

  /** Members that are tied stay in the order in which they came. */
  lemma {:induction false} SortStable<T(!new)>(xs: seq<T>, le: (T, T) -> bool, tied: T -> bool)
    requires forall a, b :: tied(a) && tied(b) ==> le(a, b)
    ensures Filter(Sort(xs, le), tied) == Filter(xs, tied)
  {
    if xs != [] {
      SortStable(xs[1..], le, tied);
      InsertStable(xs[0], Sort(xs[1..], le), le, tied);
      var sorted := Sort(xs[1..], le);
      assert ([xs[0]] + sorted)[1..] == sorted;
    }
  }

  lemma SameHead<T(!new)>(xs: seq<T>, ys: seq<T>, le: (T, T) -> bool)
    requires Preorder(le) && TieFree(xs, le)
    requires SortedBy(xs, le) && SortedBy(ys, le)
    requires multiset(xs) == multiset(ys) && xs != []
    ensures ys != [] && xs[0] == ys[0]
  {
    assert xs[0] in multiset(ys);
    var j :| 0 <= j < |ys| && ys[j] == xs[0];
    assert ys[0] in multiset(xs);
    var i :| 0 <= i < |xs| && xs[i] == ys[0];
    assert le(xs[0], xs[0]);
    assert le(xs[0], xs[i]) && le(ys[0], ys[j]);
  }

  lemma TailMembers<T>(xs: seq<T>)
    requires xs != []
    ensures multiset(xs[1..]) == multiset(xs) - multiset{xs[0]}
  {
    assert xs == [xs[0]] + xs[1..];
  }

  /** A sorted arrangement is unique when no two distinct members are tied. */
  lemma {:induction false} SortedUnique<T(!new)>(xs: seq<T>, ys: seq<T>, le: (T, T) -> bool)
    requires Preorder(le) && TieFree(xs, le)
    requires SortedBy(xs, le) && SortedBy(ys, le)
    requires multiset(xs) == multiset(ys)
    ensures xs == ys
  {
    if xs == [] {
      assert |multiset(ys)| == 0;
    } else {
      SameHead(xs, ys, le);
      TailMembers(xs);
      TailMembers(ys);
      SortedUnique(xs[1..], ys[1..], le);
      assert xs == [xs[0]] + xs[1..];
      assert ys == [ys[0]] + ys[1..];
    }
  }

  lemma Without<T>(xs: seq<T>, j: nat)
    requires j < |xs|
    ensures multiset(xs[..j] + xs[j + 1..]) == multiset(xs) - multiset{xs[j]}
  {
    assert xs == xs[..j] + ([xs[j]] + xs[j + 1..]);
  }

  /** Sorting forgets the order of its input. */
  lemma SortPermutation<T(!new)>(xs: seq<T>, ys: seq<T>, le: (T, T) -> bool)
    requires Preorder(le) && TieFree(xs, le)
    requires multiset(xs) == multiset(ys)
    ensures Sort(xs, le) == Sort(ys, le)
  {
    SortCorrect(xs, le);
    SortCorrect(ys, le);
    SortMembers(xs, le);
    SortedUnique(Sort(xs, le), Sort(ys, le), le);
  }

  lemma FilterWithout<T(!new)>(xs: seq<T>, j: nat, keep: T -> bool)
    requires j < |xs|
    ensures |Filter(xs, keep)| == |Filter(xs[..j] + xs[j + 1..], keep)| + if keep(xs[j]) then 1 else 0
  {
    FilterAppend(xs[..j], xs[j + 1..], keep);
    assert xs == xs[..j] + xs[j..];
    FilterAppend(xs[..j], xs[j..], keep);
    assert xs[j..][1..] == xs[j + 1..];
  }

  lemma FlatMapWithout<T, U>(xs: seq<T>, j: nat, f: T -> seq<U>)
    requires j < |xs|
    ensures multiset(FlatMap(xs, f)) == multiset(f(xs[j])) + multiset(FlatMap(xs[..j] + xs[j + 1..], f))
  {
    FlatMapAppend(xs[..j], xs[j + 1..], f);
    assert xs == xs[..j] + xs[j..];
    FlatMapAppend(xs[..j], xs[j..], f);
    assert xs[j..][1..] == xs[j + 1..];
    Moved(FlatMap(xs[..j], f), f(xs[j]), FlatMap(xs[j + 1..], f));
  }

  lemma Moved<U>(a: seq<U>, b: seq<U>, c: seq<U>)
    ensures multiset(a + (b + c)) == multiset(b) + multiset(a + c)
  {
  }

  /** Mapping one arrangement gives as much as mapping another. */
  lemma {:induction false} FlatMapPermutation<T, U>(xs: seq<T>, ys: seq<T>, f: T -> seq<U>)
    requires multiset(xs) == multiset(ys)
    ensures multiset(FlatMap(xs, f)) == multiset(FlatMap(ys, f))
  {
    if xs == [] {
      assert |multiset(ys)| == 0;
    } else {
      assert xs[0] in multiset(ys);
      var j :| 0 <= j < |ys| && ys[j] == xs[0];
      TailMembers(xs);
      Without(ys, j);
      FlatMapPermutation(xs[1..], ys[..j] + ys[j + 1..], f);
      FlatMapWithout(ys, j, f);
    }
  }

  /** Filtering keeps as many members of one arrangement as of another. */
  lemma {:induction false} FilterPermutation<T(!new)>(xs: seq<T>, ys: seq<T>, keep: T -> bool)
    requires multiset(xs) == multiset(ys)
    ensures |Filter(xs, keep)| == |Filter(ys, keep)|
  {
    if xs == [] {
      assert |multiset(ys)| == 0;
    } else {
      assert xs[0] in multiset(ys);
      var j :| 0 <= j < |ys| && ys[j] == xs[0];
      TailMembers(xs);
      Without(ys, j);
      FilterPermutation(xs[1..], ys[..j] + ys[j + 1..], keep);
      FilterWithout(ys, j, keep);
    }
  }

  /** The members of `xs`, each once. */
  function Dedup<T(==,!new)>(xs: seq<T>): (ys: seq<T>)
    ensures forall x :: x in ys <==> x in xs
    ensures forall i, j :: 0 <= i < j < |ys| ==> ys[i] != ys[j]
  {
    if xs == [] then []
    else
      var last := xs[|xs| - 1];
      var init := Dedup(xs[..|xs| - 1]);
      if last in init then init else init + [last]
  }

  lemma {:induction false} DistinctMultiplicity<T>(xs: seq<T>, x: T)
    requires forall i, j :: 0 <= i < j < |xs| ==> xs[i] != xs[j]
    ensures multiset(xs)[x] == if x in xs then 1 else 0
  {
    if xs != [] {
      assert xs == [xs[0]] + xs[1..];
      DistinctMultiplicity(xs[1..], x);
      if x == xs[0] {
        assert x !in xs[1..];
      }
    }
  }

  /** `sorted(set(xs))` depends on nothing but the set of members. */
  lemma SortedSetUnique<T(!new)>(xs: seq<T>, ys: seq<T>, le: (T, T) -> bool)
    requires Preorder(le) && TieFree(xs, le)
    requires forall x :: x in xs <==> x in ys
    ensures Sort(Dedup(xs), le) == Sort(Dedup(ys), le)
  {
    var a, b := Dedup(xs), Dedup(ys);
    forall x ensures multiset(a)[x] == multiset(b)[x] {
      DistinctMultiplicity(a, x);
      DistinctMultiplicity(b, x);
    }
    assert multiset(a) == multiset(b);
    SortPermutation(a, b, le);
  }
}
