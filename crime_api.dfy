/** The FastAPI endpoints over the crime collection: per-ward totals and
    averages, the rank search, the crime-reason sums, the ward list and the
    per-ward metadata. The collection is a sequence of documents in natural
    order; a `$group`/`$sort` result the endpoint only walks through is given
    as a sequence of groups. */
module CrimeApi {
  import opened Wrappers
  import opened Seqs
  import opened Sorting
  import opened Dicts
  import opened Records

  /** A stored document. An optional field is `None` when the key is missing
      (and, for the aggregated fields, when it holds no number, which `$sum`
      and `$avg` skip); `counts` holds the crime-column counts present on it. */
  datatype Doc = Doc(
    wardCode: string,
    sourceLocation: string,
    year: int,
    month: int,
    detectedCrime: Option<real>,
    weightedSentiment: Option<real>,
    counts: map<string, real>,
    population: Option<real>,
    area: Option<real>,
    council: Option<string>,
    latitude: Option<real>,
    longitude: Option<real>)

  /** The `$match` on year, month and ward code. */
  predicate Matches(d: Doc, year: int, month: int, wardCode: string)
  {
    d.year == year && d.month == month && d.wardCode == wardCode
  }

  /** The documents passing the `$match`, in collection order. */
  function Matching(docs: seq<Doc>, year: int, month: int, wardCode: string): (r: seq<Doc>)
    ensures |r| <= |docs|
    ensures forall d :: d in r <==> d in docs && Matches(d, year, month, wardCode)
  {
    if docs == [] then []
    else if Matches(docs[0], year, month, wardCode) then [docs[0]] + Matching(docs[1..], year, month, wardCode)
    else Matching(docs[1..], year, month, wardCode)
  }

  lemma {:induction false} MatchingAppend(a: seq<Doc>, b: seq<Doc>, year: int, month: int, wardCode: string)
    ensures Matching(a + b, year, month, wardCode) == Matching(a, year, month, wardCode) + Matching(b, year, month, wardCode)
  {
    if a == [] {
      assert a + b == b;
    } else {
      assert (a + b)[0] == a[0] && (a + b)[1..] == a[1..] + b;
      MatchingAppend(a[1..], b, year, month, wardCode);
    }
  }

  // ---------------------------------------------------------------------------
  // get_crime_total and get_sentiment_total

  /** `{"$sum": "$DETECTED CRIME"}`: the numeric values added up. */
  function CrimeSum(ds: seq<Doc>): real
  {
    if ds == [] then 0.0 else ds[0].detectedCrime.GetOr(0.0) + CrimeSum(ds[1..])
  }

  lemma {:induction false} CrimeSumAppend(a: seq<Doc>, b: seq<Doc>)
    ensures CrimeSum(a + b) == CrimeSum(a) + CrimeSum(b)
  {
    if a == [] {
      assert a + b == b;
    } else {
      assert (a + b)[0] == a[0] && (a + b)[1..] == a[1..] + b;
      CrimeSumAppend(a[1..], b);
    }
  }

  /** The aggregation's output: one group when any document matches, none otherwise. */
  function CrimeGroup(docs: seq<Doc>, year: int, month: int, wardCode: string): seq<real>
  {
    var ds := Matching(docs, year, month, wardCode);
    if ds == [] then [] else [CrimeSum(ds)]
  }

  /** `get_crime_total`: the group's total, or 0 when there is no group. */
  function CrimeTotal(docs: seq<Doc>, year: int, month: int, wardCode: string): (total: real)
    ensures (forall d :: d in docs ==> !Matches(d, year, month, wardCode)) ==> total == 0.0
    ensures total == CrimeSum(Matching(docs, year, month, wardCode))
  {
    var ds := Matching(docs, year, month, wardCode);
    assert ds != [] ==> ds[0] in ds;
    var result := CrimeGroup(docs, year, month, wardCode);
    if result != [] then result[0] else 0.0
  }

  /** The total over two batches of documents is the sum of their totals. */
  lemma CrimeTotalAppend(a: seq<Doc>, b: seq<Doc>, year: int, month: int, wardCode: string)
    ensures CrimeTotal(a + b, year, month, wardCode) == CrimeTotal(a, year, month, wardCode) + CrimeTotal(b, year, month, wardCode)
  {
    MatchingAppend(a, b, year, month, wardCode);
    CrimeSumAppend(Matching(a, year, month, wardCode), Matching(b, year, month, wardCode));
  }

  /** The `weighted_sentiment` values of the documents. */
  function Sentiments(ds: seq<Doc>): (vs: seq<Option<real>>)
    ensures |vs| == |ds| && forall i :: 0 <= i < |ds| ==> vs[i] == ds[i].weightedSentiment
  {
    seq(|ds|, i requires 0 <= i < |ds| => ds[i].weightedSentiment)
  }

  /** How many values are numbers (counted in reals, as the divisor of the mean). */
  function NumericCount(vs: seq<Option<real>>): (n: real)
    ensures n >= 0.0
    ensures n == 0.0 <==> forall i :: 0 <= i < |vs| ==> vs[i].None?
  {
    if vs == [] then 0.0
    else
      assert forall i :: 1 <= i < |vs| ==> vs[i] == vs[1..][i - 1];
      (if vs[0].Some? then 1.0 else 0.0) + NumericCount(vs[1..])
  }

  function NumericSum(vs: seq<Option<real>>): real
  {
    if vs == [] then 0.0 else vs[0].GetOr(0.0) + NumericSum(vs[1..])
  }

  /** `{"$avg": "$weighted_sentiment"}`: the mean of the numeric values, `null` when there are none. */
  function Average(ds: seq<Doc>): Option<real>
  {
    var vs := Sentiments(ds);
    var n := NumericCount(vs);
    if n == 0.0 then None else Some(NumericSum(vs) / n)
  }

  function SentimentGroup(docs: seq<Doc>, year: int, month: int, wardCode: string): seq<Option<real>>
  {
    var ds := Matching(docs, year, month, wardCode);
    if ds == [] then [] else [Average(ds)]
  }

  /** `get_sentiment_total`: the group's average, or `None` when there is no group. */
  function SentimentTotal(docs: seq<Doc>, year: int, month: int, wardCode: string): (avg: Option<real>)
    ensures avg.None? <==> forall d :: d in Matching(docs, year, month, wardCode) ==> d.weightedSentiment.None?
  {
    var result := SentimentGroup(docs, year, month, wardCode);
    if result != [] then result[0] else None
  }

  /** With no matching document the crime total reads 0 while the sentiment
      stays "no data". */
  lemma NoDataDistinct(docs: seq<Doc>, year: int, month: int, wardCode: string)
    requires forall d :: d in docs ==> !Matches(d, year, month, wardCode)
    ensures CrimeTotal(docs, year, month, wardCode) == 0.0
    ensures SentimentTotal(docs, year, month, wardCode) == None
  {
  }

  /** `c` added once per numeric value: the sum if every value were `c`. */
  function Uniform(vs: seq<Option<real>>, c: real): real
  {
    if vs == [] then 0.0 else (if vs[0].Some? then c else 0.0) + Uniform(vs[1..], c)
  }

  lemma {:induction false} UniformIsProduct(vs: seq<Option<real>>, c: real)
    ensures Uniform(vs, c) == NumericCount(vs) * c
  {
    if vs != [] {
      UniformIsProduct(vs[1..], c);
      var n := NumericCount(vs[1..]);
      assert (n + 1.0) * c == n * c + c;
    }
  }

  lemma {:induction false} NumericSumAtLeast(vs: seq<Option<real>>, lo: real)
    requires forall v :: v in vs && v.Some? ==> lo <= v.value
    ensures Uniform(vs, lo) <= NumericSum(vs)
  {
    if vs != [] {
      assert forall v :: v in vs[1..] ==> v in vs;
      NumericSumAtLeast(vs[1..], lo);
    }
  }

  lemma {:induction false} NumericSumAtMost(vs: seq<Option<real>>, hi: real)
    requires forall v :: v in vs && v.Some? ==> v.value <= hi
    ensures NumericSum(vs) <= Uniform(vs, hi)
  {
    if vs != [] {
      assert forall v :: v in vs[1..] ==> v in vs;
      NumericSumAtMost(vs[1..], hi);
    }
  }

  /** The average lies within the range of the values it averages. */
  lemma SentimentWithinRange(docs: seq<Doc>, year: int, month: int, wardCode: string, lo: real, hi: real)
    requires forall d :: d in docs && d.weightedSentiment.Some? ==> lo <= d.weightedSentiment.value <= hi
    ensures var avg := SentimentTotal(docs, year, month, wardCode);
      avg.Some? ==> lo <= avg.value <= hi
  {
    var ds := Matching(docs, year, month, wardCode);
    var vs := Sentiments(ds);
    assert forall v :: v in vs ==> exists i :: 0 <= i < |ds| && ds[i].weightedSentiment == v && ds[i] in docs;
    MeanWithin(vs, lo, hi);
  }

  lemma MeanWithin(vs: seq<Option<real>>, lo: real, hi: real)
    requires forall v :: v in vs && v.Some? ==> lo <= v.value <= hi
    ensures NumericCount(vs) > 0.0 ==> lo <= NumericSum(vs) / NumericCount(vs) <= hi
  {
    MeanAtLeast(vs, lo);
    MeanAtMost(vs, hi);
  }

  lemma MeanAtLeast(vs: seq<Option<real>>, lo: real)
    requires forall v :: v in vs && v.Some? ==> lo <= v.value
    ensures NumericCount(vs) > 0.0 ==> lo <= NumericSum(vs) / NumericCount(vs)
  {
    NumericSumAtLeast(vs, lo);
    UniformIsProduct(vs, lo);
    if NumericCount(vs) > 0.0 {
      DivideAtLeast(NumericSum(vs), NumericCount(vs), lo);
    }
  }

  lemma MeanAtMost(vs: seq<Option<real>>, hi: real)
    requires forall v :: v in vs && v.Some? ==> v.value <= hi
    ensures NumericCount(vs) > 0.0 ==> NumericSum(vs) / NumericCount(vs) <= hi
  {
    NumericSumAtMost(vs, hi);
    UniformIsProduct(vs, hi);
    if NumericCount(vs) > 0.0 {
      DivideAtMost(NumericSum(vs), NumericCount(vs), hi);
    }
  }

  lemma DivideAtLeast(s: real, n: real, lo: real)
    requires n > 0.0 && n * lo <= s
    ensures lo <= s / n
  {
    assert s / n - lo == (s - n * lo) / n;
  }

  lemma DivideAtMost(s: real, n: real, hi: real)
    requires n > 0.0 && s <= n * hi
    ensures s / n <= hi
  {
    assert hi - s / n == (n * hi - s) / n;
  }

  // ---------------------------------------------------------------------------
  // get_location_crime_rank and get_location_sentiment_rank

  /** One `$group` output: the ward code and its total (crime) or average
      (sentiment, `null` when the ward has no numeric value). */
  datatype Group = Group(id: string, value: Option<real>)

  /** Descending `$sort` order: `null` sorts below every number. */
  predicate AtLeast(a: Option<real>, b: Option<real>)
  {
    b.None? || (a.Some? && a.value >= b.value)
  }

  predicate Above(a: Option<real>, b: Option<real>)
  {
    a.Some? && (b.None? || a.value > b.value)
  }

  ghost predicate SortedDescending(groups: seq<Group>)
  {
    forall i, j :: 0 <= i < j < |groups| ==> AtLeast(groups[i].value, groups[j].value)
  }

  /** `$group` emits each ward code once. */
  ghost predicate DistinctIds(groups: seq<Group>)
  {
    forall i, j :: 0 <= i < j < |groups| ==> groups[i].id != groups[j].id
  }

  /** The rank the search produces: 1 + the first position of the ward, `None` if absent. */
  function RankOf(groups: seq<Group>, wardCode: string): (rank: Option<nat>)
    ensures rank.None? <==> forall i :: 0 <= i < |groups| ==> groups[i].id != wardCode
    ensures rank.Some? ==> 1 <= rank.value <= |groups| && groups[rank.value - 1].id == wardCode
                           && forall j :: 0 <= j < rank.value - 1 ==> groups[j].id != wardCode
  {
    if groups == [] then None
    else if groups[0].id == wardCode then Some(1)
    else
      var r := RankOf(groups[1..], wardCode);
      assert forall j :: 1 <= j < |groups| ==> groups[j] == groups[1..][j - 1];
      if r.None? then None else Some(r.value + 1)
  }

  /** The rank endpoints' loop: walk the sorted groups, stop at the first one
      whose id is the ward code. */
  method LocationRank(groups: seq<Group>, wardCode: string) returns (rank: Option<nat>, totalRegions: nat)
    ensures totalRegions == |groups|
    ensures rank == RankOf(groups, wardCode)
    ensures rank.Some? ==> 1 <= rank.value <= totalRegions
  {
    totalRegions := |groups|;
    rank := None;
    var idx := 0;
    while idx < |groups|
      invariant 0 <= idx <= |groups|
      invariant forall j :: 0 <= j < idx ==> groups[j].id != wardCode
      invariant rank == None
    {
      if groups[idx].id == wardCode {
        rank := Some(idx + 1);
        RankFirst(groups, wardCode, idx);
        return;
      }
      idx := idx + 1;
    }
  }

  lemma {:induction false} RankFirst(groups: seq<Group>, wardCode: string, idx: nat)
    requires idx < |groups| && groups[idx].id == wardCode
    requires forall j :: 0 <= j < idx ==> groups[j].id != wardCode
    ensures RankOf(groups, wardCode) == Some(idx + 1)
  {
    if idx > 0 {
      assert groups[1..][idx - 1] == groups[idx];
      RankFirst(groups[1..], wardCode, idx - 1);
    }
  }

  /** In the sorted, one-per-ward group list a ward with a strictly higher
      score gets a strictly better (smaller) rank, and every ward's rank is its
      position plus one. */
  lemma RankOrder(groups: seq<Group>, i: nat, j: nat)
    requires SortedDescending(groups) && DistinctIds(groups)
    requires i < |groups| && j < |groups|
    ensures RankOf(groups, groups[i].id) == Some(i + 1)
    ensures Above(groups[i].value, groups[j].value) ==>
              RankOf(groups, groups[i].id).value < RankOf(groups, groups[j].id).value
  {
    RankFirst(groups, groups[i].id, i);
    RankFirst(groups, groups[j].id, j);
  }

  // ---------------------------------------------------------------------------
  // get_crime_reasons

  /** The seventeen crime columns, in their listed order. */
  const CrimeColumns: seq<string> := [
    "Alcohol offences, travelling to and from sporting event",
    "Breach of football banning order",
    "Breach of the peace",
    "Carrying of Knives etc S Act 1993",
    "Drunk in or attempting to enter designated sports ground",
    "Mobbing and rioting",
    "Offensive behaviour at football (OBaFaTBSA 2012)",
    "Permitting riotous behaviour in licensed premises",
    "Possession of an offensive weapon",
    "Possession of offensive weapon used in other criminal activity",
    "Public mischief - including wasting police time",
    "Racially aggravated conduct",
    "Racially aggravated harassment",
    "Serious Assault",
    "Sports grounds offences possessing alcohol etc",
    "Stirring up hatred: Racial",
    "Threatening or abusive behaviour"
  ]

  lemma ColumnsDistinct()
    ensures |CrimeColumns| == 17 && Distinct(CrimeColumns)
  {
  }

  /** `doc.get(col, 0)`. */
  function CountOrZero(d: Doc, col: string): real
  {
    if col in d.counts then d.counts[col] else 0.0
  }

  /** The sum of `doc.get(col, 0)` over the documents, starting from 0. */
  function ColumnSum(ds: seq<Doc>, col: string): real
  {
    if ds == [] then 0.0 else ColumnSum(ds[..|ds| - 1], col) + CountOrZero(ds[|ds| - 1], col)
  }

  /** The entries of `crime_sums` after the documents `ds`: every column, in order, with its sum. */
  function SumEntries(cols: seq<string>, ds: seq<Doc>): (es: seq<(string, real)>)
    ensures |es| == |cols|
    ensures forall i :: 0 <= i < |es| ==> es[i] == (cols[i], ColumnSum(ds, cols[i]))
  {
    seq(|cols|, i requires 0 <= i < |cols| => (cols[i], ColumnSum(ds, cols[i])))
  }

  /** The entries part-way through adding document `d`: the first `c` columns already include it. */
  function PartialEntries(cols: seq<string>, ds: seq<Doc>, d: Doc, c: nat): (es: seq<(string, real)>)
    ensures |es| == |cols|
    ensures forall i :: 0 <= i < |es| ==>
              es[i] == (cols[i], ColumnSum(ds, cols[i]) + if i < c then CountOrZero(d, cols[i]) else 0.0)
  {
    seq(|cols|, i requires 0 <= i < |cols| =>
      (cols[i], ColumnSum(ds, cols[i]) + if i < c then CountOrZero(d, cols[i]) else 0.0))
  }

  function SumOf(e: (string, real)): real
  {
    e.1
  }

  /** The `if v > 0` filter of the result comprehension. */
  function Positives(s: seq<(string, real)>): (r: seq<(string, real)>)
    ensures |r| <= |s|
  {
    if s == [] then []
    else if s[0].1 > 0.0 then [s[0]] + Positives(s[1..])
    else Positives(s[1..])
  }

  /** The filter keeps exactly the entries with a positive sum. */
  lemma {:induction false} PositivesMembers(s: seq<(string, real)>)
    ensures forall e :: e in Positives(s) <==> e in s && e.1 > 0.0
  {
    if s != [] {
      PositivesMembers(s[1..]);
      assert forall e :: e in s <==> e == s[0] || e in s[1..];
    }
  }

  /** Every kept entry stands somewhere in the input. */
  lemma {:induction false} PositivesOrigin(s: seq<(string, real)>, k: nat)
    requires k < |Positives(s)|
    ensures exists p :: 0 <= p < |s| && s[p] == Positives(s)[k]
  {
    var rest := Positives(s[1..]);
    if s[0].1 > 0.0 && k == 0 {
      assert s[0] == Positives(s)[0];
    } else {
      var k' := if s[0].1 > 0.0 then k - 1 else k;
      assert Positives(s)[k] == rest[k'];
      PositivesOrigin(s[1..], k');
      var p :| 0 <= p < |s[1..]| && s[1..][p] == rest[k'];
      assert s[p + 1] == Positives(s)[k];
    }
  }

  /** The filter keeps the relative order of what it keeps. */
  lemma {:induction false} PositivesOrder(s: seq<(string, real)>, i: nat, j: nat)
    requires i < j < |Positives(s)|
    ensures exists p, q :: 0 <= p < q < |s| && s[p] == Positives(s)[i] && s[q] == Positives(s)[j]
  {
    var r := Positives(s);
    var rest := Positives(s[1..]);
    if s[0].1 > 0.0 && i == 0 {
      assert r[j] == rest[j - 1];
      PositivesOrigin(s[1..], j - 1);
      var q :| 0 <= q < |s[1..]| && s[1..][q] == rest[j - 1];
      assert s[0] == r[0] && s[q + 1] == r[j];
    } else {
      var i', j' := if s[0].1 > 0.0 then i - 1 else i, if s[0].1 > 0.0 then j - 1 else j;
      assert r[i] == rest[i'] && r[j] == rest[j'];
      PositivesOrder(s[1..], i', j');
      var p, q :| 0 <= p < q < |s[1..]| && s[1..][p] == rest[i'] && s[1..][q] == rest[j'];
      assert s[p + 1] == r[i] && s[q + 1] == r[j];
    }
  }

  /** What `get_crime_reasons` returns: the columns of the sums sorted by
      non-increasing sum, keeping those with a positive sum. */
  function Reasons(docs: seq<Doc>, year: int, month: int, wardCode: string): seq<(string, real)>
  {
    Positives(SortBy(SumEntries(CrimeColumns, Matching(docs, year, month, wardCode)), SumOf, true))
  }

  /** `get_crime_reasons`: `crime_sums` starts at 0 for every column, the nested
      loop adds each matching document's counts, and the sorted, filtered
      entries become the result object (its keys are distinct, so the
      comprehension keeps them in the sorted order). */
  method CrimeReasons(docs: seq<Doc>, year: int, month: int, wardCode: string) returns (reasons: Dict<real>)
    ensures reasons.entries == Reasons(docs, year, month, wardCode)
  {
    ColumnsDistinct();
    var sums := SumColumns(CrimeColumns, Matching(docs, year, month, wardCode));
    reasons := Dict(Positives(SortBy(sums.entries, SumOf, true)));
  }

  /** The nested loop: `sums` starts at 0 for every column and ends holding each
      column's total over the documents, in column order. */
  method SumColumns(cols: seq<string>, cursor: seq<Doc>) returns (sums: Dict<real>)
    requires Distinct(cols)
    ensures sums.entries == SumEntries(cols, cursor)
  {
    sums := Dict(seq(|cols|, i requires 0 <= i < |cols| => (cols[i], 0.0)));
    SumStart(cols, cursor, sums);
    var d := 0;
    while d < |cursor|
      invariant 0 <= d <= |cursor|
      invariant sums.entries == SumEntries(cols, cursor[..d])
    {
      PartialStart(cols, cursor[..d], cursor[d]);
      sums := AddCounts(cols, cursor[..d], cursor[d], sums);
      AddDone(cols, cursor, d);
      d := d + 1;
    }
    assert cursor[..d] == cursor;
  }

  /** The inner loop: one document's counts added to every column in turn. */
  method AddCounts(cols: seq<string>, ds: seq<Doc>, doc: Doc, sums: Dict<real>) returns (next: Dict<real>)
    requires Distinct(cols) && sums.entries == PartialEntries(cols, ds, doc, 0)
    ensures next.entries == PartialEntries(cols, ds, doc, |cols|)
  {
    next := sums;
    var c := 0;
    while c < |cols|
      invariant 0 <= c <= |cols|
      invariant next.entries == PartialEntries(cols, ds, doc, c)
    {
      var col := cols[c];
      AddStep(cols, ds, doc, c, next);
      var current := Get(next, col).value;
      next := Put(next, col, current + CountOrZero(doc, col));
      c := c + 1;
    }
  }

  lemma SumStart(cols: seq<string>, cursor: seq<Doc>, sums: Dict<real>)
    requires sums.entries == seq(|cols|, i requires 0 <= i < |cols| => (cols[i], 0.0))
    ensures sums.entries == SumEntries(cols, cursor[..0])
  {
  }

  lemma PartialStart(cols: seq<string>, ds: seq<Doc>, d: Doc)
    ensures PartialEntries(cols, ds, d, 0) == SumEntries(cols, ds)
  {
  }

  /** One `crime_sums[col] += doc.get(col, 0)`: column `c` is read and
      written in place and the next column is up. */
  lemma AddStep(cols: seq<string>, ds: seq<Doc>, d: Doc, c: nat, sums: Dict<real>)
    requires Distinct(cols)
    requires c < |cols| && sums.entries == PartialEntries(cols, ds, d, c)
    ensures Get(sums, cols[c]) == Some(ColumnSum(ds, cols[c]))
    ensures Put(sums, cols[c], ColumnSum(ds, cols[c]) + CountOrZero(d, cols[c])).entries
         == PartialEntries(cols, ds, d, c + 1)
  {
    var col := cols[c];
    var v := ColumnSum(ds, col) + CountOrZero(d, col);
    PartialKeys(cols, ds, d, c, sums);
    IndexOfDistinct(cols, c);
    assert IndexOf(Keys(sums), col) == c;
    assert sums.entries[c] == (col, ColumnSum(ds, col));
    PutAt(sums, c, v);
    PartialNext(cols, ds, d, c);
  }

  /** Assigning to the key stored at position `c` rewrites that entry. */
  lemma PutAt(sums: Dict<real>, c: nat, v: real)
    requires c < |sums.entries| && IndexOf(Keys(sums), sums.entries[c].0) == c
    ensures Put(sums, sums.entries[c].0, v).entries == sums.entries[c := (sums.entries[c].0, v)]
  {
  }

  lemma PartialNext(cols: seq<string>, ds: seq<Doc>, d: Doc, c: nat)
    requires c < |cols|
    ensures PartialEntries(cols, ds, d, c + 1)
         == PartialEntries(cols, ds, d, c)[c := (cols[c], ColumnSum(ds, cols[c]) + CountOrZero(d, cols[c]))]
  {
  }

  lemma PartialKeys(cols: seq<string>, ds: seq<Doc>, d: Doc, c: nat, sums: Dict<real>)
    requires sums.entries == PartialEntries(cols, ds, d, c)
    ensures Keys(sums) == cols
  {
  }

  /** After every column has been updated, the sums cover one more document. */
  lemma AddDone(cols: seq<string>, cursor: seq<Doc>, d: nat)
    requires d < |cursor|
    ensures PartialEntries(cols, cursor[..d], cursor[d], |cols|) == SumEntries(cols, cursor[..d + 1])
  {
    assert cursor[..d + 1][..d] == cursor[..d];
  }

  /** A column's position among the sum entries is its position in the column list. */
  lemma EntryIndex(cols: seq<string>, ds: seq<Doc>, e: (string, real))
    requires Distinct(cols) && e in SumEntries(cols, ds)
    ensures IndexOf(SumEntries(cols, ds), e) == IndexOf(cols, e.0)
  {
    var k := IndexOf(SumEntries(cols, ds), e);
    IndexOfDistinct(cols, k);
  }

  lemma EntriesDistinct(cols: seq<string>, ds: seq<Doc>)
    requires Distinct(cols)
    ensures Distinct(SumEntries(cols, ds))
  {
  }

  /** An entry is in the result exactly when it is a listed column paired
      with its sum over the matching documents and that sum is positive. */
  lemma ReasonsMembers(docs: seq<Doc>, year: int, month: int, wardCode: string, e: (string, real))
    ensures e in Reasons(docs, year, month, wardCode) <==>
              e.0 in CrimeColumns && e.1 == ColumnSum(Matching(docs, year, month, wardCode), e.0) && e.1 > 0.0
  {
    PositiveSumMembers(CrimeColumns, Matching(docs, year, month, wardCode), e);
  }

  lemma PositiveSumMembers(cols: seq<string>, ds: seq<Doc>, e: (string, real))
    ensures e in Positives(SortBy(SumEntries(cols, ds), SumOf, true)) <==>
              e.0 in cols && e.1 == ColumnSum(ds, e.0) && e.1 > 0.0
  {
    var es := SumEntries(cols, ds);
    SortByMembers(es, SumOf, true);
    PositivesMembers(SortBy(es, SumOf, true));
    if e.0 in cols {
      var k := IndexOf(cols, e.0);
      assert es[k].0 == e.0;
    }
  }

  /** The result is ordered by non-increasing sum and names each column at most once. */
  lemma ReasonsOrdered(docs: seq<Doc>, year: int, month: int, wardCode: string)
    ensures Ordered(Reasons(docs, year, month, wardCode), SumOf, true)
    ensures Distinct(Reasons(docs, year, month, wardCode))
  {
    var es := SumEntries(CrimeColumns, Matching(docs, year, month, wardCode));
    var sorted := SortBy(es, SumOf, true);
    var r := Positives(sorted);
    SortByCorrect(es, SumOf, true);
    ColumnsDistinct();
    EntriesDistinct(CrimeColumns, Matching(docs, year, month, wardCode));
    PermutationDistinct(es, sorted);
    forall i, j | 0 <= i < j < |r|
      ensures Precedes(true, SumOf(r[i]), SumOf(r[j])) && r[i] != r[j]
    {
      PositivesOrder(sorted, i, j);
    }
  }

  /** Equal sums keep the order of the column list: Python's `sorted` is stable. */
  lemma ReasonsTies(docs: seq<Doc>, year: int, month: int, wardCode: string, i: nat, j: nat)
    requires i < j < |Reasons(docs, year, month, wardCode)|
    requires Reasons(docs, year, month, wardCode)[i].1 == Reasons(docs, year, month, wardCode)[j].1
    ensures IndexOf(CrimeColumns, Reasons(docs, year, month, wardCode)[i].0)
          < IndexOf(CrimeColumns, Reasons(docs, year, month, wardCode)[j].0)
  {
    ColumnsDistinct();
    StableTies(CrimeColumns, Matching(docs, year, month, wardCode), i, j);
  }

  lemma StableTies(cols: seq<string>, ds: seq<Doc>, i: nat, j: nat)
    requires Distinct(cols)
    requires i < j < |Positives(SortBy(SumEntries(cols, ds), SumOf, true))|
    requires Positives(SortBy(SumEntries(cols, ds), SumOf, true))[i].1 == Positives(SortBy(SumEntries(cols, ds), SumOf, true))[j].1
    ensures IndexOf(cols, Positives(SortBy(SumEntries(cols, ds), SumOf, true))[i].0)
          < IndexOf(cols, Positives(SortBy(SumEntries(cols, ds), SumOf, true))[j].0)
  {
    var es := SumEntries(cols, ds);
    var sorted := SortBy(es, SumOf, true);
    var r := Positives(sorted);
    EntriesDistinct(cols, ds);
    PositivesOrder(sorted, i, j);
    var p, q :| 0 <= p < q < |sorted| && sorted[p] == r[i] && sorted[q] == r[j];
    SortedTiesKeepInputOrder(es, SumOf, true, p, q);
    SortByMembers(es, SumOf, true);
    EntryIndex(cols, ds, r[i]);
    EntryIndex(cols, ds, r[j]);
  }

  // ---------------------------------------------------------------------------
  // get_wards

  function PairOf(d: Doc): WardMapping
  {
    WardMapping(d.wardCode, d.sourceLocation)
  }

  /** `get_wards`: one entry per distinct (ward code, source location) pair.
      `$group` promises no order; the model lists the pairs in order of first
      appearance, and the contract claims no order. */
  function GetWards(docs: seq<Doc>): (ws: seq<WardMapping>)
    ensures Distinct(ws)
    ensures forall i :: 0 <= i < |docs| ==> PairOf(docs[i]) in ws
    ensures forall k :: 0 <= k < |ws| ==> exists i :: 0 <= i < |docs| && PairOf(docs[i]) == ws[k]
  {
    var pairs := seq(|docs|, i requires 0 <= i < |docs| => PairOf(docs[i]));
    assert forall i :: 0 <= i < |docs| ==> pairs[i] == PairOf(docs[i]);
    Dedup(pairs)
  }

  // ---------------------------------------------------------------------------
  // get_location_metadata and get_ward_latlon

  /** `find_one({"WARD CODE": ward_code})`: the first document of that ward. */
  function FindOne(docs: seq<Doc>, wardCode: string): (r: Option<Doc>)
    ensures r.None? <==> forall i :: 0 <= i < |docs| ==> docs[i].wardCode != wardCode
    ensures r.Some? ==> exists i :: 0 <= i < |docs| && docs[i] == r.value && r.value.wardCode == wardCode
                          && forall j :: 0 <= j < i ==> docs[j].wardCode != wardCode
  {
    if docs == [] then None
    else if docs[0].wardCode == wardCode then Some(docs[0])
    else
      var r := FindOne(docs[1..], wardCode);
      assert forall j :: 1 <= j < |docs| ==> docs[j] == docs[1..][j - 1];
      r
  }

  /** Python's `int()` of a float: truncation toward zero. */
  function Truncate(x: real): (n: int)
    ensures x >= 0.0 ==> n as real <= x < n as real + 1.0
    ensures x < 0.0 ==> n as real - 1.0 < x <= n as real
  {
    if x >= 0.0 then x.Floor else -((-x).Floor)
  }

  /** The `HTTPException(status_code=404, ...)`. */
  datatype HttpError = NotFound(detail: string)

  datatype Metadata = Metadata(population: int, area: real, council: string)

  /** `get_location_metadata`. */
  function LocationMetadata(docs: seq<Doc>, wardCode: string): (r: Result<Metadata, HttpError>)
    ensures r.Err? <==> forall i :: 0 <= i < |docs| ==> docs[i].wardCode != wardCode
    ensures r.Err? ==> r.error == NotFound("Location '" + wardCode + "' not found")
    ensures r.Ok? ==> var d := FindOne(docs, wardCode).value;
      && (d.population.None? ==> r.value.population == 0)
      && (d.population.Some? ==> r.value.population == Truncate(d.population.value))
      && (d.area.None? ==> r.value.area == 0.0)
      && (d.area.Some? ==> r.value.area == d.area.value)
      && (d.council.None? ==> r.value.council == "")
      && (d.council.Some? ==> r.value.council == d.council.value)
  {
    match FindOne(docs, wardCode)
    case None => Err(NotFound("Location '" + wardCode + "' not found"))
    case Some(d) => Ok(Metadata(Truncate(d.population.GetOr(0.0)), d.area.GetOr(0.0), d.council.GetOr("")))
  }

  datatype LatLon = LatLon(latitude: real, longitude: real)

  /** `get_ward_latlon`. Its `Err?` condition is the one `LocationMetadata`
      states, so the two lookups fail for the same ward codes. */
  function WardLatLon(docs: seq<Doc>, wardCode: string): (r: Result<LatLon, HttpError>)
    ensures r.Err? <==> forall i :: 0 <= i < |docs| ==> docs[i].wardCode != wardCode
    ensures r.Err? ==> r.error == NotFound("Ward code '" + wardCode + "' not found")
    ensures r.Ok? ==> var d := FindOne(docs, wardCode).value;
      && (d.latitude.None? ==> r.value.latitude == 0.0)
      && (d.longitude.None? ==> r.value.longitude == 0.0)
      && (d.latitude.Some? ==> r.value.latitude == d.latitude.value)
      && (d.longitude.Some? ==> r.value.longitude == d.longitude.value)
  {
    match FindOne(docs, wardCode)
    case None => Err(NotFound("Ward code '" + wardCode + "' not found"))
    case Some(d) => Ok(LatLon(d.latitude.GetOr(0.0), d.longitude.GetOr(0.0)))
  }
}
