/** The stable sort that `Array.prototype.sort` with a numeric comparator
    (`(a, b) => b.score - a.score`) and Python's `sorted(..., key=..., reverse=True)`
    perform: elements ordered by a real-valued key, equal keys left in their input
    order. Modelled as insertion sort on sequences. */
module Sorting {
  import opened Seqs

  /** Key `a` may stand before key `b`: non-increasing order when `descending`,
      non-decreasing order otherwise. */
  predicate Precedes(descending: bool, a: real, b: real)
  {
    if descending then a >= b else a <= b
  }

  /** Key `a` must stand strictly before key `b`. */
  predicate Ahead(descending: bool, a: real, b: real)
  {
    if descending then a > b else a < b
  }

  /** Inserts `x` before the first element it may precede; an element equal in
      key to `x` stays behind it, so an element met earlier in the input stays first. */
  function Insert<T>(x: T, s: seq<T>, key: T -> real, descending: bool): seq<T>
  {
    if s == [] || Precedes(descending, key(x), key(s[0])) then [x] + s
    else [s[0]] + Insert(x, s[1..], key, descending)
  }

  function SortBy<T>(s: seq<T>, key: T -> real, descending: bool): seq<T>
  {
    if s == [] then [] else Insert(s[0], SortBy(s[1..], key, descending), key, descending)
  }

  ghost predicate Ordered<T>(s: seq<T>, key: T -> real, descending: bool)
  {
    forall i, j :: 0 <= i < j < |s| ==> Precedes(descending, key(s[i]), key(s[j]))
  }

  /** The elements whose key is `v`, in order. */
  function KeyFilter<T>(s: seq<T>, key: T -> real, v: real): seq<T>
  {
    if s == [] then []
    else if key(s[0]) == v then [s[0]] + KeyFilter(s[1..], key, v)
    else KeyFilter(s[1..], key, v)
  }

  /** How many elements must stand strictly before an element whose key is `k`. */
  function CountAhead<T>(s: seq<T>, key: T -> real, descending: bool, k: real): nat
  {
    if s == [] then 0
    else (if Ahead(descending, key(s[0]), k) then 1 else 0) + CountAhead(s[1..], key, descending, k)
  }

  /** How many elements have key `k`. */
  function CountEqual<T>(s: seq<T>, key: T -> real, k: real): nat
  {
    if s == [] then 0
    else (if key(s[0]) == k then 1 else 0) + CountEqual(s[1..], key, k)
  }

  // ---- Insert ----

  lemma {:induction false} InsertMultiset<T>(x: T, s: seq<T>, key: T -> real, descending: bool)
    ensures multiset(Insert(x, s, key, descending)) == multiset(s) + multiset{x}
  {
    if s != [] && !Precedes(descending, key(x), key(s[0])) {
      InsertMultiset(x, s[1..], key, descending);
      assert s == [s[0]] + s[1..];
    }
  }

  lemma {:induction false} InsertOrdered<T>(x: T, s: seq<T>, key: T -> real, descending: bool)
    requires Ordered(s, key, descending)
    ensures Ordered(Insert(x, s, key, descending), key, descending)
  {
    if s != [] && !Precedes(descending, key(x), key(s[0])) {
      var t := Insert(x, s[1..], key, descending);
      assert Ordered(s[1..], key, descending);
      InsertOrdered(x, s[1..], key, descending);
      InsertMultiset(x, s[1..], key, descending);
      forall j | 0 <= j < |t|
        ensures Precedes(descending, key(s[0]), key(t[j]))
      {
        assert t[j] in multiset(t);
        assert t[j] in multiset(s[1..]) || t[j] == x;
        if t[j] != x {
          var k :| 0 <= k < |s[1..]| && s[1..][k] == t[j];
          assert s[k + 1] == t[j];
        }
      }
    }
  }

  lemma {:induction false} InsertKeyFilter<T>(x: T, s: seq<T>, key: T -> real, descending: bool, v: real)
    ensures KeyFilter(Insert(x, s, key, descending), key, v)
         == (if key(x) == v then [x] else []) + KeyFilter(s, key, v)
  {
    if s == [] || Precedes(descending, key(x), key(s[0])) {
      assert ([x] + s)[1..] == s;
    } else {
      InsertKeyFilter(x, s[1..], key, descending, v);
      assert ([s[0]] + Insert(x, s[1..], key, descending))[1..] == Insert(x, s[1..], key, descending);
    }
  }

  lemma {:induction false} InsertCountAhead<T>(x: T, s: seq<T>, key: T -> real, descending: bool, k: real)
    ensures CountAhead(Insert(x, s, key, descending), key, descending, k)
         == (if Ahead(descending, key(x), k) then 1 else 0) + CountAhead(s, key, descending, k)
  {
    if s == [] || Precedes(descending, key(x), key(s[0])) {
      assert ([x] + s)[1..] == s;
    } else {
      InsertCountAhead(x, s[1..], key, descending, k);
      assert ([s[0]] + Insert(x, s[1..], key, descending))[1..] == Insert(x, s[1..], key, descending);
    }
  }

  /** In an ordered sequence that `x` may precede from the start, nothing stands strictly ahead of `x`. */
  lemma {:induction false} NoneAhead<T>(x: T, s: seq<T>, key: T -> real, descending: bool)
    requires Ordered(s, key, descending)
    requires s != [] && Precedes(descending, key(x), key(s[0]))
    ensures CountAhead(s, key, descending, key(x)) == 0
  {
    if |s| > 1 {
      assert Precedes(descending, key(s[0]), key(s[1]));
      assert Ordered(s[1..], key, descending);
      NoneAhead(x, s[1..], key, descending);
    }
  }

  /** Where an inserted element lands: behind every element strictly ahead of it. */
  lemma {:induction false} InsertIndexSelf<T>(x: T, s: seq<T>, key: T -> real, descending: bool)
    requires Ordered(s, key, descending)
    requires x !in s
    ensures IndexOf(Insert(x, s, key, descending), x) == CountAhead(s, key, descending, key(x))
  {
    if s == [] {
    } else if Precedes(descending, key(x), key(s[0])) {
      NoneAhead(x, s, key, descending);
    } else {
      assert Ordered(s[1..], key, descending);
      InsertIndexSelf(x, s[1..], key, descending);
      var t := [s[0]] + Insert(x, s[1..], key, descending);
      assert t[1..] == Insert(x, s[1..], key, descending);
    }
  }

  /** An element already present moves one place back exactly when the inserted element may precede it. */
  lemma {:induction false} InsertIndexOther<T>(x: T, s: seq<T>, key: T -> real, descending: bool, y: T)
    requires Ordered(s, key, descending)
    requires y in s && y != x
    ensures IndexOf(Insert(x, s, key, descending), y)
         == IndexOf(s, y) + (if Precedes(descending, key(x), key(y)) then 1 else 0)
  {
    if Precedes(descending, key(x), key(s[0])) {
      var i := IndexOf(s, y);
      assert i == 0 || Precedes(descending, key(s[0]), key(s[i]));
      var t := [x] + s;
      assert t[1..] == s;
    } else if s[0] != y {
      assert Ordered(s[1..], key, descending);
      InsertIndexOther(x, s[1..], key, descending, y);
      var t := [s[0]] + Insert(x, s[1..], key, descending);
      assert t[1..] == Insert(x, s[1..], key, descending);
    }
  }

  // ---- SortBy ----

  /** The sort result is ordered by key and a permutation of its input. */
  lemma {:induction false} SortByCorrect<T>(s: seq<T>, key: T -> real, descending: bool)
    ensures Ordered(SortBy(s, key, descending), key, descending)
    ensures multiset(SortBy(s, key, descending)) == multiset(s)
  {
    if s != [] {
      SortByCorrect(s[1..], key, descending);
      InsertOrdered(s[0], SortBy(s[1..], key, descending), key, descending);
      InsertMultiset(s[0], SortBy(s[1..], key, descending), key, descending);
      assert s == [s[0]] + s[1..];
    }
  }

  lemma SortByLength<T>(s: seq<T>, key: T -> real, descending: bool)
    ensures |SortBy(s, key, descending)| == |s|
  {
    SortByCorrect(s, key, descending);
    assert |multiset(SortBy(s, key, descending))| == |multiset(s)|;
  }

  lemma SortByMembers<T>(s: seq<T>, key: T -> real, descending: bool)
    ensures forall x :: x in SortBy(s, key, descending) <==> x in s
  {
    SortByCorrect(s, key, descending);
    forall x ensures x in SortBy(s, key, descending) <==> x in s {
      assert x in SortBy(s, key, descending) <==> x in multiset(SortBy(s, key, descending));
      assert x in s <==> x in multiset(s);
    }
  }

  /** Stability: the elements sharing any one key come out in their input order. */
  lemma {:induction false} SortByStable<T>(s: seq<T>, key: T -> real, descending: bool, v: real)
    ensures KeyFilter(SortBy(s, key, descending), key, v) == KeyFilter(s, key, v)
  {
    if s != [] {
      SortByStable(s[1..], key, descending, v);
      InsertKeyFilter(s[0], SortBy(s[1..], key, descending), key, descending, v);
    }
  }

  lemma {:induction false} SortByCountAhead<T>(s: seq<T>, key: T -> real, descending: bool, k: real)
    ensures CountAhead(SortBy(s, key, descending), key, descending, k) == CountAhead(s, key, descending, k)
  {
    if s != [] {
      SortByCountAhead(s[1..], key, descending, k);
      InsertCountAhead(s[0], SortBy(s[1..], key, descending), key, descending, k);
    }
  }

  /** The position of an element after a stable sort of distinct elements: the
      number of elements with a key strictly ahead of its key, plus the number of
      elements with the same key met earlier in the input. */
  lemma {:induction false} SortByIndex<T>(s: seq<T>, key: T -> real, descending: bool, i: nat)
    requires Distinct(s) && i < |s|
    ensures IndexOf(SortBy(s, key, descending), s[i])
         == CountAhead(s, key, descending, key(s[i])) + CountEqual(s[..i], key, key(s[i]))
  {
    var rest := s[1..];
    if i == 0 {
      SortByIndexHead(s, key, descending);
    } else {
      assert Distinct(rest) && rest[i - 1] == s[i];
      SortByIndex(rest, key, descending, i - 1);
      SortByIndexLater(s, key, descending, i);
    }
  }

  /** The first input element lands behind everything strictly ahead of it. */
  lemma SortByIndexHead<T>(s: seq<T>, key: T -> real, descending: bool)
    requires Distinct(s) && s != []
    ensures IndexOf(SortBy(s, key, descending), s[0]) == CountAhead(s, key, descending, key(s[0]))
  {
    var x, rest := s[0], s[1..];
    var t := SortBy(rest, key, descending);
    SortByCorrect(rest, key, descending);
    SortByCountAhead(rest, key, descending, key(x));
    assert x !in multiset(rest) by {
      assert x !in rest by {
        forall k | 0 <= k < |rest| ensures rest[k] != x { assert rest[k] == s[k + 1]; }
      }
    }
    InsertIndexSelf(x, t, key, descending);
  }

  /** A later element moves one place back when the first element may precede it. */
  lemma SortByIndexLater<T>(s: seq<T>, key: T -> real, descending: bool, i: nat)
    requires Distinct(s) && 0 < i < |s|
    requires IndexOf(SortBy(s[1..], key, descending), s[i])
          == CountAhead(s[1..], key, descending, key(s[i])) + CountEqual(s[1..][..i - 1], key, key(s[i]))
    ensures IndexOf(SortBy(s, key, descending), s[i])
         == CountAhead(s, key, descending, key(s[i])) + CountEqual(s[..i], key, key(s[i]))
  {
    var x, rest := s[i], s[1..];
    var t := SortBy(rest, key, descending);
    SortByCorrect(rest, key, descending);
    assert x in multiset(t) by {
      assert rest[i - 1] == x;
    }
    assert s[0] != x;
    InsertIndexOther(s[0], t, key, descending, x);
    assert s[..i] == [s[0]] + rest[..i - 1];
    assert (([s[0]] + rest[..i - 1])[1..]) == rest[..i - 1];
  }

  // ---- counting helpers ----

  lemma {:induction false} CountEqualAppend<T>(a: seq<T>, b: seq<T>, key: T -> real, k: real)
    ensures CountEqual(a + b, key, k) == CountEqual(a, key, k) + CountEqual(b, key, k)
  {
    if a == [] {
      assert a + b == b;
    } else {
      assert (a + b)[1..] == a[1..] + b;
      CountEqualAppend(a[1..], b, key, k);
    }
  }

  /** An element counts itself among the equal keys of any prefix reaching past it. */
  lemma CountEqualPrefix<T>(s: seq<T>, key: T -> real, i: nat, j: nat)
    requires i < j <= |s|
    ensures CountEqual(s[..j], key, key(s[i])) >= CountEqual(s[..i], key, key(s[i])) + 1
  {
    assert s[..j] == s[..i] + s[i..j];
    CountEqualAppend(s[..i], s[i..j], key, key(s[i]));
    assert s[i..j][0] == s[i];
  }

  /** Stability: of two distinct elements with the same key, the one met first
      in the input stays first. */
  lemma SortByTies<T>(s: seq<T>, key: T -> real, descending: bool, x: T, y: T)
    requires Distinct(s) && x in s && y in s
    requires key(x) == key(y) && IndexOf(s, x) < IndexOf(s, y)
    ensures IndexOf(SortBy(s, key, descending), x) < IndexOf(SortBy(s, key, descending), y)
  {
    var i, j := IndexOf(s, x), IndexOf(s, y);
    SortByIndex(s, key, descending, i);
    SortByIndex(s, key, descending, j);
    CountEqualPrefix(s, key, i, j);
  }

  /** Read backwards: of two output positions with equal keys, the earlier one
      holds the element met earlier in the input. */
  lemma SortedTiesKeepInputOrder<T>(s: seq<T>, key: T -> real, descending: bool, p: nat, q: nat)
    requires Distinct(s) && p < q < |SortBy(s, key, descending)|
    requires key(SortBy(s, key, descending)[p]) == key(SortBy(s, key, descending)[q])
    ensures IndexOf(s, SortBy(s, key, descending)[p]) < IndexOf(s, SortBy(s, key, descending)[q])
  {
    var sorted := SortBy(s, key, descending);
    var x, y := sorted[p], sorted[q];
    SortByDistinct(s, key, descending, p, q);
    var i, j := IndexOf(s, x), IndexOf(s, y);
    assert i != j;
    IndexOfDistinct(sorted, p);
    IndexOfDistinct(sorted, q);
    if j < i {
      SortByTies(s, key, descending, y, x);
    }
  }

  /** Two positions of a sorted sequence of distinct elements hold two distinct
      elements of the input. */
  lemma SortByDistinct<T>(s: seq<T>, key: T -> real, descending: bool, p: nat, q: nat)
    requires Distinct(s) && p < q < |SortBy(s, key, descending)|
    ensures Distinct(SortBy(s, key, descending))
    ensures SortBy(s, key, descending)[p] in s && SortBy(s, key, descending)[q] in s
  {
    var sorted := SortBy(s, key, descending);
    SortByCorrect(s, key, descending);
    PermutationDistinct(s, sorted);
    assert sorted[p] in multiset(s) && sorted[q] in multiset(s);
  }

  /** Within an ordered sequence, an element standing earlier never has a key the later one is ahead of. */
  lemma OrderedIndices<T>(s: seq<T>, key: T -> real, descending: bool, a: T, b: T)
    requires Ordered(s, key, descending)
    requires a in s && b in s
    requires Ahead(descending, key(a), key(b))
    ensures IndexOf(s, a) < IndexOf(s, b)
  {
    var ia, ib := IndexOf(s, a), IndexOf(s, b);
    assert s[ia] == a && s[ib] == b;
  }

  // ---- top-N ----

  /** `sort(...).slice(0, n)`: at most `n` elements, ordered, drawn from the input,
      and no element left out stands strictly ahead of the last one kept. */
  lemma TopN<T>(s: seq<T>, key: T -> real, descending: bool, n: nat)
    ensures var top := Take(SortBy(s, key, descending), n);
      && |top| == (if |s| < n then |s| else n)
      && Ordered(top, key, descending)
      && multiset(top) <= multiset(s)
      && (top != [] ==> forall x :: x in multiset(s) - multiset(top) ==>
            Precedes(descending, key(top[|top| - 1]), key(x)))
  {
    var sorted := SortBy(s, key, descending);
    SortByLength(s, key, descending);
    var top := Take(sorted, n);
    TopNOrdered(s, key, descending, n);
    if top != [] {
      TopNRest(s, sorted, top, key, descending);
    }
  }

  lemma TopNOrdered<T>(s: seq<T>, key: T -> real, descending: bool, n: nat)
    ensures Ordered(Take(SortBy(s, key, descending), n), key, descending)
  {
    SortByCorrect(s, key, descending);
  }

  /** What `slice` leaves behind of a sorted sequence never stands strictly ahead of what it keeps. */
  lemma TopNRest<T>(s: seq<T>, sorted: seq<T>, top: seq<T>, key: T -> real, descending: bool)
    requires sorted == SortBy(s, key, descending) && top != [] && |top| <= |sorted| && top == sorted[..|top|]
    ensures multiset(top) <= multiset(s)
    ensures forall x :: x in multiset(s) - multiset(top) ==> Precedes(descending, key(top[|top| - 1]), key(x))
  {
    SortByCorrect(s, key, descending);
    var rest := sorted[|top|..];
    assert sorted == top + rest;
    assert multiset(sorted) == multiset(top) + multiset(rest);
    forall x | x in multiset(s) - multiset(top)
      ensures Precedes(descending, key(top[|top| - 1]), key(x))
    {
      assert x in multiset(rest);
      var k :| 0 <= k < |rest| && rest[k] == x;
      assert sorted[|top| + k] == x;
    }
  }
}
