/** String operations the components rely on: the JavaScript `\s` character
    class, ASCII case mapping, substring search and the code-point order that
    stands for JavaScript's default `sort()` order. */
module Text {

  /** The characters JavaScript's `\s` matches: WhiteSpace and LineTerminator. */
  predicate IsSpace(c: char)
  {
    var n := c as int;
    n == 0x09 || n == 0x0A || n == 0x0B || n == 0x0C || n == 0x0D || n == 0x20
    || n == 0xA0 || n == 0x1680 || (0x2000 <= n <= 0x200A) || n == 0x2028 || n == 0x2029
    || n == 0x202F || n == 0x205F || n == 0x3000 || n == 0xFEFF
  }

  predicate NoSpace(s: string)
  {
    forall i :: 0 <= i < |s| ==> !IsSpace(s[i])
  }

  // ---- ASCII case mapping ----

  function UpperChar(c: char): char
  {
    if 'a' <= c <= 'z' then (c as int - 'a' as int + 'A' as int) as char else c
  }

  function LowerChar(c: char): char
  {
    if 'A' <= c <= 'Z' then (c as int - 'A' as int + 'a' as int) as char else c
  }

  /** `toUpperCase()` on the ASCII letters. */
  function Upper(s: string): (r: string)
    ensures |r| == |s|
    ensures forall i :: 0 <= i < |s| ==> r[i] == UpperChar(s[i])
  {
    if s == [] then [] else [UpperChar(s[0])] + Upper(s[1..])
  }

  /** `toLowerCase()` on the ASCII letters. */
  function Lower(s: string): (r: string)
    ensures |r| == |s|
    ensures forall i :: 0 <= i < |s| ==> r[i] == LowerChar(s[i])
  {
    if s == [] then [] else [LowerChar(s[0])] + Lower(s[1..])
  }

  lemma LowerOfUpper(s: string)
    ensures Lower(Upper(s)) == Lower(s)
  {
  }

  lemma LowerIdempotent(s: string)
    ensures Lower(Lower(s)) == Lower(s)
  {
  }

  lemma UpperIdempotent(s: string)
    ensures Upper(Upper(s)) == Upper(s)
  {
  }

  // ---- whitespace runs ----

  /** Drops the leading whitespace run. */
  function SkipSpaces(s: string): (r: string)
    ensures |r| <= |s| && r == s[|s| - |r|..]
    ensures r == [] || !IsSpace(r[0])
    ensures forall i :: 0 <= i < |s| - |r| ==> IsSpace(s[i])
    ensures s != [] && IsSpace(s[0]) ==> |r| < |s|
  {
    if s != [] && IsSpace(s[0]) then SkipSpaces(s[1..]) else s
  }

  /** `s.replace(/\s+/g, '_')`: every maximal whitespace run becomes one underscore. */
  function CollapseSpaces(s: string): (r: string)
    ensures NoSpace(r)
    ensures |r| <= |s|
    decreases |s|
  {
    if s == [] then []
    else if IsSpace(s[0]) then "_" + CollapseSpaces(SkipSpaces(s))
    else [s[0]] + CollapseSpaces(s[1..])
  }

  /** Text without whitespace is left as it is. */
  lemma {:induction false} CollapseNoSpace(s: string)
    requires NoSpace(s)
    ensures CollapseSpaces(s) == s
  {
    if s != [] {
      CollapseNoSpace(s[1..]);
    }
  }

  /** A run of whitespace between space-free text and text that does not start
      with whitespace turns into exactly one underscore. */
  lemma {:induction false} CollapseRun(a: string, run: string, b: string)
    requires NoSpace(a) && run != [] && (forall i :: 0 <= i < |run| ==> IsSpace(run[i]))
    requires b == [] || !IsSpace(b[0])
    ensures CollapseSpaces(a + run + b) == a + "_" + CollapseSpaces(b)
  {
    if a == [] {
      assert a + run + b == run + b;
      SkipRun(run, b);
    } else {
      assert (a + run + b)[1..] == a[1..] + run + b;
      CollapseRun(a[1..], run, b);
    }
  }

  lemma {:induction false} SkipRun(run: string, b: string)
    requires forall i :: 0 <= i < |run| ==> IsSpace(run[i])
    requires b == [] || !IsSpace(b[0])
    ensures SkipSpaces(run + b) == b
  {
    if run == [] {
      assert run + b == b;
    } else {
      assert (run + b)[1..] == run[1..] + b;
      SkipRun(run[1..], b);
    }
  }

  // ---- substring search ----

  /** `sub` occurs in `s` starting at position `i`. */
  predicate OccursAt(s: string, sub: string, i: int)
  {
    0 <= i <= |s| - |sub| && s[i..i + |sub|] == sub
  }

  /** `s.includes(sub)`. */
  function Contains(s: string, sub: string): (r: bool)
    ensures r <==> exists i :: OccursAt(s, sub, i)
  {
    if sub <= s then
      assert OccursAt(s, sub, 0);
      true
    else if s == [] then
      assert forall i :: !OccursAt(s, sub, i);
      false
    else
      var r := Contains(s[1..], sub);
      assert r ==> exists i :: OccursAt(s, sub, i) by {
        if r {
          var i :| OccursAt(s[1..], sub, i);
          assert s[i + 1..i + 1 + |sub|] == s[1..][i..i + |sub|];
          assert OccursAt(s, sub, i + 1);
        }
      }
      assert (exists i :: OccursAt(s, sub, i)) ==> r by {
        if i :| OccursAt(s, sub, i) {
          if i > 0 {
            assert s[1..][i - 1..i - 1 + |sub|] == s[i..i + |sub|];
            assert OccursAt(s[1..], sub, i - 1);
          }
        }
      }
      r
  }

  // ---- code-point order ----

  /** `a < b` on strings: lexicographic order of characters, each compared by
      its Unicode code point. */
  predicate LexLess(a: string, b: string)
  {
    if a == [] then b != []
    else if b == [] then false
    else if a[0] != b[0] then a[0] < b[0]
    else LexLess(a[1..], b[1..])
  }

  lemma {:induction false} LexLessIrreflexive(a: string)
    ensures !LexLess(a, a)
  {
    if a != [] {
      LexLessIrreflexive(a[1..]);
    }
  }

  lemma {:induction false} LexLessTransitive(a: string, b: string, c: string)
    requires LexLess(a, b) && LexLess(b, c)
    ensures LexLess(a, c)
  {
    if a != [] && b != [] && c != [] && a[0] == b[0] && b[0] == c[0] {
      LexLessTransitive(a[1..], b[1..], c[1..]);
    }
  }

  lemma {:induction false} LexLessTotal(a: string, b: string)
    requires a != b
    ensures LexLess(a, b) || LexLess(b, a)
  {
    if a != [] && b != [] && a[0] == b[0] {
      assert a == [a[0]] + a[1..] && b == [b[0]] + b[1..];
      LexLessTotal(a[1..], b[1..]);
    }
  }

  lemma {:induction false} LexLessAsymmetric(a: string, b: string)
    requires LexLess(a, b)
    ensures !LexLess(b, a)
  {
    if a != [] && b != [] && a[0] == b[0] {
      LexLessAsymmetric(a[1..], b[1..]);
    }
  }

  // ---- sorting by a string key ----

  /** Neither `b < a` nor `c < b` rules out `c < a`: the order "not less than" is transitive. */
  lemma NotLessTransitive(a: string, b: string, c: string)
    requires !LexLess(b, a) && !LexLess(c, b)
    ensures !LexLess(c, a)
  {
    if LexLess(c, a) && a != b {
      LexLessTotal(a, b);
      LexLessTransitive(c, a, b);
    }
  }

  function InsertByName<T>(x: T, s: seq<T>, nameOf: T -> string): seq<T>
  {
    if s == [] || !LexLess(nameOf(s[0]), nameOf(x)) then [x] + s
    else [s[0]] + InsertByName(x, s[1..], nameOf)
  }

  /** `sort()` on strings, and `sort((a, b) => a.label.localeCompare(b.label))` on records. */
  function SortByName<T>(s: seq<T>, nameOf: T -> string): seq<T>
  {
    if s == [] then [] else InsertByName(s[0], SortByName(s[1..], nameOf), nameOf)
  }

  ghost predicate NameOrdered<T>(s: seq<T>, nameOf: T -> string)
  {
    forall i, j :: 0 <= i < j < |s| ==> !LexLess(nameOf(s[j]), nameOf(s[i]))
  }

  lemma {:induction false} InsertByNameCorrect<T>(x: T, s: seq<T>, nameOf: T -> string)
    requires NameOrdered(s, nameOf)
    ensures NameOrdered(InsertByName(x, s, nameOf), nameOf)
    ensures multiset(InsertByName(x, s, nameOf)) == multiset(s) + multiset{x}
  {
    if s == [] {
    } else if !LexLess(nameOf(s[0]), nameOf(x)) {
      var r := [x] + s;
      forall j | 1 <= j < |r| ensures !LexLess(nameOf(r[j]), nameOf(x)) {
        if j > 1 {
          assert !LexLess(nameOf(s[j - 1]), nameOf(s[0]));
          NotLessTransitive(nameOf(x), nameOf(s[0]), nameOf(s[j - 1]));
        }
      }
    } else {
      var t := InsertByName(x, s[1..], nameOf);
      assert NameOrdered(s[1..], nameOf);
      InsertByNameCorrect(x, s[1..], nameOf);
      assert s == [s[0]] + s[1..];
      var r := [s[0]] + t;
      forall j | 0 < j < |r| ensures !LexLess(nameOf(r[j]), nameOf(s[0])) {
        assert r[j] in multiset(t);
        if r[j] == x {
          LexLessAsymmetric(nameOf(s[0]), nameOf(x));
        } else {
          assert r[j] in multiset(s[1..]);
          var k :| 0 <= k < |s[1..]| && s[1..][k] == r[j];
          assert s[k + 1] == r[j];
        }
      }
    }
  }

  /** The result is ordered by name and a permutation of the input. */
  lemma {:induction false} SortByNameCorrect<T>(s: seq<T>, nameOf: T -> string)
    ensures NameOrdered(SortByName(s, nameOf), nameOf)
    ensures multiset(SortByName(s, nameOf)) == multiset(s)
  {
    if s != [] {
      SortByNameCorrect(s[1..], nameOf);
      InsertByNameCorrect(s[0], SortByName(s[1..], nameOf), nameOf);
      assert s == [s[0]] + s[1..];
    }
  }
}
