/** The catalogue: which directories are turned into companions, and in what order. */
module Catalogue {
  import opened Strings
  import opened Ordering
  import opened Tsv
  import opened DemoName
  import opened Rosetta
  import Companion
  import SlaEval
  import SourceNames

  /** An entry of the source directory: its name and whether it is a directory. */
  type Listing = seq<(string, bool)>

  type Numbered = (nat, string)

  predicate ByNumber(a: Numbered, b: Numbered) {
    a.0 <= b.0
  }

  /** An entry that the catalogue takes, with its number. */
  function Numbers(limit: nat): ((string, bool)) -> seq<Numbered> {
    (entry: (string, bool)) =>
      if !entry.1 then []
      else match DemoNumber(entry.0)
        case None => []
        case Some(n) => if n < 1 || n > limit then [] else [(n, entry.0)]
  }

  /** The numbers of the catalogue, each with its directory, in listing order. */
  function Selected(listing: Listing, limit: nat): seq<Numbered> {
    FlatMap(listing, Numbers(limit))
  }

  /** An entry is selected exactly when it is a directory whose name has a number in range. */
  lemma SelectedMembers(listing: Listing, limit: nat, f: Numbered)
    ensures f in Selected(listing, limit) <==> (f.1, true) in listing && DemoNumber(f.1) == Some(f.0) && 1 <= f.0 <= limit
  {
    FlatMapMembers(listing, Numbers(limit), f);
    if (f.1, true) in listing && DemoNumber(f.1) == Some(f.0) && 1 <= f.0 <= limit {
      assert f in Numbers(limit)((f.1, true));
    }
  }

  lemma SelectedRange(listing: Listing, limit: nat)
    ensures forall f :: f in Selected(listing, limit) ==> 1 <= f.0 <= limit && DemoNumber(f.1) == Some(f.0)
  {
    forall f | f in Selected(listing, limit) ensures 1 <= f.0 <= limit && DemoNumber(f.1) == Some(f.0) {
      SelectedMembers(listing, limit, f);
    }
  }

  /** `sla_source(name)` for a name that has a number. */
  function SourceOf(name: string): (text: string)
    ensures DemoNumber(name).Some? ==> SlaSource(name) == Some(text)
  {
    match SlaSource(name) case Some(text) => text case None => ""
  }

  /** What a run writes: for each entry, in order, its name and its companion. */
  function Written(entries: seq<Numbered>, source: string -> string): (files: seq<(string, string)>)
    ensures |files| == |entries|
    ensures forall i :: 0 <= i < |entries| ==> files[i] == (entries[i].1, source(entries[i].1))
  {
    if entries == [] then [] else [(entries[0].1, source(entries[0].1))] + Written(entries[1..], source)
  }

  lemma {:induction false} WrittenSnoc(entries: seq<Numbered>, e: Numbered, source: string -> string)
    ensures Written(entries + [e], source) == Written(entries, source) + [(e.1, source(e.1))]
  {
    if entries == [] {
      assert entries + [e] == [e];
    } else {
      assert (entries + [e])[1..] == entries[1..] + [e];
      WrittenSnoc(entries[1..], e, source);
    }
  }

  lemma SelectedSorted(listing: Listing, limit: nat)
    ensures forall e :: e in Sort(Selected(listing, limit), ByNumber) <==> e in Selected(listing, limit)
    ensures |Sort(Selected(listing, limit), ByNumber)| == |Selected(listing, limit)|
  {
    SortMembers(Selected(listing, limit), ByNumber);
  }

  method Select(listing: Listing, limit: nat) returns (dirs: seq<Numbered>)
    ensures dirs == Selected(listing, limit)
  {
    dirs := [];
    for i := 0 to |listing|
      invariant dirs == FlatMap(listing[..i], Numbers(limit))
    {
      var (name, isDir) := listing[i];
      FlatMapSnoc(listing, i, Numbers(limit));
      if !isDir {
        continue;
      }
      var number := DemoNumber(name);
      if number == None || number.value < 1 || number.value > limit {
        continue;
      }
      dirs := dirs + [(number.value, name)];
    }
    assert listing[..|listing|] == listing;
  }

  method Write(dirs: seq<Numbered>, source: string -> string) returns (files: seq<(string, string)>)
    ensures files == Written(dirs, source)
  {
    files := [];
    for i := 0 to |dirs|
      invariant files == Written(dirs[..i], source)
    {
      assert dirs[..i + 1] == dirs[..i] + [dirs[i]];
      WrittenSnoc(dirs[..i], dirs[i], source);
      files := files + [(dirs[i].1, source(dirs[i].1))];
    }
    assert dirs[..|dirs|] == dirs;
  }

  /** The files of a run; RuntimeError, here None, unless exactly `limit` directories are selected. */
  function Files(listing: Listing, limit: nat): Option<seq<(string, string)>> {
    if |Selected(listing, limit)| != limit then None
    else Some(Written(Sort(Selected(listing, limit), ByNumber), SourceOf))
  }

  /** `main` */
  method Generate(listing: Listing, limit: nat) returns (files: Option<seq<(string, string)>>)
    ensures files == Files(listing, limit)
  {
    var dirs := Select(listing, limit);
    SelectedSorted(listing, limit);
    dirs := Sort(dirs, ByNumber);
    if |dirs| != limit {
      return None;
    }
    var out := Write(dirs, SourceOf);
    files := Some(out);
  }

  // ----- completeness -----

  ghost predicate DistinctNumbers(xs: seq<Numbered>) {
    forall i, j :: 0 <= i < j < |xs| ==> xs[i].0 != xs[j].0
  }

  /** Number `i + 1` stands at index `i`. */
  ghost predicate Complete(xs: seq<Numbered>) {
    forall i :: 0 <= i < |xs| ==> xs[i].0 == i + 1
  }

  lemma {:induction false} DistinctByMultiplicity(xs: seq<Numbered>, ys: seq<Numbered>)
    requires multiset(xs) == multiset(ys) && DistinctNumbers(xs)
    ensures DistinctNumbers(ys)
  {
    forall i, j | 0 <= i < j < |ys| ensures ys[i].0 != ys[j].0 {
      if ys[i].0 == ys[j].0 {
        assert ys[i] in multiset(ys) && ys[j] in multiset(ys);
        var a :| 0 <= a < |xs| && xs[a] == ys[i];
        var b :| 0 <= b < |xs| && xs[b] == ys[j];
        assert a == b;
        assert forall p, q :: 0 <= p < q < |xs| ==> xs[p] != xs[q];
        DistinctMultiplicity(xs, ys[i]);
        Twice(ys, i, j);
      }
    }
  }

  lemma Twice<T>(ys: seq<T>, i: nat, j: nat)
    requires i < j < |ys| && ys[i] == ys[j]
    ensures multiset(ys)[ys[i]] >= 2
  {
    assert ys == ys[..i] + ([ys[i]] + ys[i + 1..j] + [ys[j]] + ys[j + 1..]);
  }

  /** Sorted distinct numbers from 1 on climb at least one at a time. */
  lemma {:induction false} Climbs(xs: seq<Numbered>, i: nat)
    requires SortedBy(xs, ByNumber) && DistinctNumbers(xs) && i < |xs|
    requires forall x :: x in xs ==> 1 <= x.0
    ensures xs[i].0 >= i + 1
  {
    assert xs[i] in xs;
    if i > 0 {
      Climbs(xs, i - 1);
      assert ByNumber(xs[i - 1], xs[i]);
    }
  }

  /** And they leave room for those that follow. */
  lemma {:induction false} LeavesRoom(xs: seq<Numbered>, i: nat, limit: nat)
    requires SortedBy(xs, ByNumber) && DistinctNumbers(xs) && i < |xs|
    requires forall x :: x in xs ==> x.0 <= limit
    ensures xs[i].0 + (|xs| - 1 - i) <= limit
    decreases |xs| - i
  {
    assert xs[i] in xs;
    if i + 1 < |xs| {
      LeavesRoom(xs, i + 1, limit);
      assert ByNumber(xs[i], xs[i + 1]);
    }
  }

  /** When the count check passes, the sorted catalogue holds number i + 1 at index i exactly when no number was
      selected twice: the check alone does not tell a duplicate from a full catalogue. */
  lemma CatalogueComplete(listing: Listing, limit: nat)
    requires |Selected(listing, limit)| == limit
    ensures Complete(Sort(Selected(listing, limit), ByNumber)) <==> DistinctNumbers(Selected(listing, limit))
  {
    var found := Selected(listing, limit);
    var sorted := Sort(found, ByNumber);
    SelectedRange(listing, limit);
    SortCorrect(found, ByNumber);
    SelectedSorted(listing, limit);
    if DistinctNumbers(found) {
      DistinctByMultiplicity(found, sorted);
      forall i | 0 <= i < |sorted| ensures sorted[i].0 == i + 1 {
        Climbs(sorted, i);
        LeavesRoom(sorted, i, limit);
      }
    }
    if Complete(sorted) {
      DistinctByMultiplicity(sorted, found);
    }
  }

  /** The check is passed by a catalogue with a number twice and another missing. */
  lemma DuplicatePassesTheCheck()
    ensures var listing := [("1_a", true), ("01_b", true)];
      |Selected(listing, 2)| == 2 && !Complete(Sort(Selected(listing, 2), ByNumber))
  {
    var listing := [("1_a", true), ("01_b", true)];
    assert "1_a" == Decimal.Zeros(0) + Decimal.Print(1) + "_" + "a";
    assert "01_b" == Decimal.Zeros(1) + Decimal.Print(1) + "_" + "b";
    DemoNumberOfPrinted(0, 1, "a");
    DemoNumberOfPrinted(1, 1, "b");
    assert listing[1..] == [("01_b", true)] && listing[1..][1..] == [];
    assert Numbers(2)(listing[0]) == [(1, "1_a")] && Numbers(2)(listing[1]) == [(1, "01_b")];
    assert Selected(listing[1..], 2) == Numbers(2)(listing[1]) + FlatMap(listing[1..][1..], Numbers(2));
    assert Selected(listing, 2) == [(1, "1_a"), (1, "01_b")];
    CatalogueComplete(listing, 2);
  }

  /** With distinct numbers the order in which the directory is listed does not matter. */
  lemma ListingOrderFree(listing: Listing, other: Listing, limit: nat)
    requires multiset(listing) == multiset(other)
    requires DistinctNumbers(Selected(listing, limit))
    ensures Files(listing, limit) == Files(other, limit)
  {
    var found, others := Selected(listing, limit), Selected(other, limit);
    FlatMapPermutation(listing, other, Numbers(limit));
    NumberOrder(found);
    SortPermutation(found, others, ByNumber);
    assert |multiset(found)| == |multiset(others)|;
  }

  /** Directories of one number are written in the order in which they are listed. */
  lemma TiedInListingOrder(listing: Listing, limit: nat, n: nat)
    ensures var tied := (f: Numbered) => f.0 == n;
      Filter(Sort(Selected(listing, limit), ByNumber), tied) == Filter(Selected(listing, limit), tied)
  {
    SortStable(Selected(listing, limit), ByNumber, (f: Numbered) => f.0 == n);
  }

  lemma NumberOrder(found: seq<Numbered>)
    requires DistinctNumbers(found)
    ensures Preorder(ByNumber) && TieFree(found, ByNumber)
  {
  }

  lemma FileAt(listing: Listing, limit: nat, i: nat)
    requires Files(listing, limit).Some? && i < limit
    ensures var sorted := Sort(Selected(listing, limit), ByNumber);
      && |sorted| == limit && |Files(listing, limit).value| == limit
      && Files(listing, limit).value[i] == (sorted[i].1, SourceOf(sorted[i].1))
      && 1 <= sorted[i].0 <= limit && DemoNumber(sorted[i].1) == Some(sorted[i].0)
  {
    SelectedSorted(listing, limit);
    SelectedRange(listing, limit);
    var sorted := Sort(Selected(listing, limit), ByNumber);
    assert sorted[i] in sorted;
  }

  /** The file is the companion of the number. */
  predicate IsCompanionOf(file: (string, string), n: nat) {
    DemoNumber(file.0) == Some(n) && SlaSource(file.0) == Some(file.1)
  }

  lemma FileOf(e: Numbered, n: nat)
    requires DemoNumber(e.1) == Some(e.0) && e.0 == n
    ensures IsCompanionOf((e.1, SourceOf(e.1)), n)
  {
  }

  lemma CompanionAt(files: seq<(string, string)>, sorted: seq<Numbered>, i: nat, limit: nat)
    requires |sorted| == limit && |files| == limit && i < limit
    requires files[i] == (sorted[i].1, SourceOf(sorted[i].1)) && DemoNumber(sorted[i].1) == Some(sorted[i].0)
    requires Complete(sorted)
    ensures IsCompanionOf(files[i], i + 1)
  {
    FileOf(sorted[i], i + 1);
  }

  lemma FileInOrder(listing: Listing, limit: nat, i: nat)
    requires Files(listing, limit).Some? && i < limit
    requires Complete(Sort(Selected(listing, limit), ByNumber))
    ensures |Files(listing, limit).value| == limit && IsCompanionOf(Files(listing, limit).value[i], i + 1)
  {
    FileAt(listing, limit, i);
    CompanionAt(Files(listing, limit).value, Sort(Selected(listing, limit), ByNumber), i, limit);
  }

  lemma FileCount(listing: Listing, limit: nat)
    ensures Files(listing, limit).Some? ==> |Selected(listing, limit)| == limit && |Files(listing, limit).value| == limit
  {
    SelectedSorted(listing, limit);
  }

  /** A successful run over distinct numbers writes the companions of 1 to `limit`, each once and in order. */
  lemma RunInOrder(listing: Listing, limit: nat)
    ensures var files := Files(listing, limit);
      files.Some? && DistinctNumbers(Selected(listing, limit)) ==>
        |files.value| == limit && forall i :: 0 <= i < limit ==> IsCompanionOf(files.value[i], i + 1)
  {
    FileCount(listing, limit);
    if Files(listing, limit).Some? && DistinctNumbers(Selected(listing, limit)) {
      CatalogueComplete(listing, limit);
      forall i | 0 <= i < limit ensures IsCompanionOf(Files(listing, limit).value[i], i + 1) {
        FileInOrder(listing, limit, i);
      }
    }
  }

  /** Whatever the listing, every file of a successful run whose name is quote-safe passes its own test exactly when the
      name stays in its comment, in 32-bit integers already, up to a limit far above the one that is set. */
  lemma EveryFilePasses(listing: Listing, limit: nat, i: nat)
    requires limit <= 214748345 && i < limit
    ensures var files := Files(listing, limit);
      files.Some? ==> |files.value| == limit && Passes32(files.value[i])
  {
    var files := Files(listing, limit);
    if files.Some? {
      FileAt(listing, limit, i);
      FilePasses(Sort(Selected(listing, limit), ByNumber)[i], limit);
    }
  }

  /** The file passes its own test exactly when its name stays in its comment, if the name is quote-safe. */
  ghost predicate Passes32(file: (string, string)) {
    SlaSyntax.QuoteSafe(file.0) ==>
      (Companion.Check(file.1, 0x7FFF_FFFF) == Companion.Ran(SlaEval.Passed)
       <==> SourceNames.CommentSafe(SourceNames.NameComment(file.0)))
  }

  lemma FilePasses(e: Numbered, limit: nat)
    requires DemoNumber(e.1) == Some(e.0) && e.0 <= limit <= 214748345
    ensures Passes32((e.1, SourceOf(e.1)))
  {
    if SlaSyntax.QuoteSafe(e.1) {
      Companion.CompanionPasses32(e.1, e.0);
    }
  }
}
