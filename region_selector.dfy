/** The region picker's search box: the regions whose lower-cased name contains
    the lower-cased query, in the list's order. */
module RegionSelector {
  import opened Seqs
  import opened Text

  predicate Accepts(region: string, search: string)
  {
    Contains(Lower(region), Lower(search))
  }

  /** `filteredRegions`. */
  function FilteredRegions(allRegions: seq<string>, search: string): (shown: seq<string>)
    ensures |shown| <= |allRegions|
    ensures forall r :: r in shown <==> r in allRegions && Accepts(r, search)
  {
    if allRegions == [] then []
    else
      var rest := FilteredRegions(allRegions[1..], search);
      assert forall r :: r in allRegions <==> r == allRegions[0] || r in allRegions[1..];
      if Accepts(allRegions[0], search) then [allRegions[0]] + rest else rest
  }

  /** The filter keeps the list's order: what it shows is a subsequence. */
  lemma {:induction false} FilteredIsSubsequence(allRegions: seq<string>, search: string)
    ensures IsSubsequence(FilteredRegions(allRegions, search), allRegions)
  {
    if allRegions != [] {
      var rest := FilteredRegions(allRegions[1..], search);
      FilteredIsSubsequence(allRegions[1..], search);
      if !Accepts(allRegions[0], search) {
        SubsequenceCons(rest, allRegions[0], allRegions[1..]);
        assert [allRegions[0]] + allRegions[1..] == allRegions;
      }
    }
  }

  /** An empty search shows every region. */
  lemma {:induction false} EmptySearchShowsAll(allRegions: seq<string>)
    ensures FilteredRegions(allRegions, "") == allRegions
  {
    if allRegions != [] {
      assert OccursAt(Lower(allRegions[0]), Lower(""), 0);
      EmptySearchShowsAll(allRegions[1..]);
    }
  }

  /** The search ignores case: typing it in upper or lower case shows the same list. */
  lemma CaseInsensitive(allRegions: seq<string>, search: string)
    ensures FilteredRegions(allRegions, Upper(search)) == FilteredRegions(allRegions, search)
    ensures FilteredRegions(allRegions, Lower(search)) == FilteredRegions(allRegions, search)
  {
    LowerOfUpper(search);
    LowerIdempotent(search);
  }

  /** Filtering the shown list again with the same search changes nothing. */
  lemma {:induction false} FilterIdempotent(allRegions: seq<string>, search: string)
    ensures FilteredRegions(FilteredRegions(allRegions, search), search) == FilteredRegions(allRegions, search)
  {
    if allRegions != [] {
      FilterIdempotent(allRegions[1..], search);
      var rest := FilteredRegions(allRegions[1..], search);
      if Accepts(allRegions[0], search) {
        assert ([allRegions[0]] + rest)[1..] == rest;
      }
    }
  }
}
