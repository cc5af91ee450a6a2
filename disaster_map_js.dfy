/** The map component that reads the bundled monthly data directly: the
    search options, the per-period score map, the five-band colour scale, the
    top-five leaderboard and the top crimes of the selected area. */
module DisasterMapJs {
  import opened Wrappers
  import opened Seqs
  import opened Sorting
  import opened Text
  import opened Dicts
  import opened Records
  import opened Colors
  import opened Buckets

  /** The keys of a row that are not crime categories. */
  const MetaFields: seq<string> := [
    "source_location", "COUNCIL NAME", "WARD CODE", "Population_Census_2022-03-20", "Area",
    "longitude", "latitude", "year", "month", "DETECTED CRIME", "neg_ratio"]

  // ---- search options ----

  /** One search option: a place name with the ward code and position of its first row. */
  datatype AreaOption = AreaOption(place: string, wardCode: string, longitude: real, latitude: real)

  function OptionOf(r: Row): AreaOption
  {
    AreaOption(r.sourceLocation, r.wardCode, r.longitude, r.latitude)
  }

  function PlaceOf(o: AreaOption): string
  {
    o.place
  }

  function Places(opts: seq<AreaOption>): (ls: seq<string>)
    ensures |ls| == |opts|
    ensures forall i :: 0 <= i < |opts| ==> ls[i] == opts[i].place
  {
    seq(|opts|, i requires 0 <= i < |opts| => opts[i].place)
  }

  /** Row `k` is the first row with its place name. */
  predicate FirstOfName(rows: seq<Row>, k: int)
    requires 0 <= k < |rows|
  {
    forall j :: 0 <= j < k ==> rows[j].sourceLocation != rows[k].sourceLocation
  }

  /** The `uniqueAreas` map's values: one option per place name, made from the
      first row with that name, in first-seen order. */
  function FirstPerLocation(rows: seq<Row>): (opts: seq<AreaOption>)
    ensures Distinct(Places(opts))
    ensures forall k :: 0 <= k < |rows| ==> rows[k].sourceLocation in Places(opts)
    ensures forall i :: 0 <= i < |opts| ==>
              exists k :: 0 <= k < |rows| && opts[i] == OptionOf(rows[k]) && FirstOfName(rows, k)
  {
    if rows == [] then []
    else
      var init := rows[..|rows| - 1];
      var last := rows[|rows| - 1];
      var d := FirstPerLocation(init);
      assert forall k :: 0 <= k < |init| ==> init[k] == rows[k];
      assert forall k :: 0 <= k < |init| && FirstOfName(init, k) ==> FirstOfName(rows, k);
      if last.sourceLocation in Places(d) then d
      else
        var r := d + [OptionOf(last)];
        assert Places(r) == Places(d) + [last.sourceLocation];
        assert FirstOfName(rows, |rows| - 1);
        r
  }

  /** `areaOptions`: the options sorted by label. */
  function AreaOptions(rows: seq<Row>): seq<AreaOption>
  {
    SortByName(FirstPerLocation(rows), PlaceOf)
  }

  /** The options are in strictly ascending place order (so no place is offered
      twice), every place in the data is offered, and each option carries the
      ward code and position of the first row with its name. */
  lemma AreaOptionsCorrect(rows: seq<Row>)
    ensures var opts := AreaOptions(rows);
      && (forall i, j :: 0 <= i < j < |opts| ==> LexLess(opts[i].place, opts[j].place))
      && (forall k :: 0 <= k < |rows| ==> rows[k].sourceLocation in Places(opts))
      && (forall i :: 0 <= i < |opts| ==>
            exists k :: 0 <= k < |rows| && opts[i] == OptionOf(rows[k]) && FirstOfName(rows, k))
  {
    var f := FirstPerLocation(rows);
    var opts := AreaOptions(rows);
    SortByNameCorrect(f, PlaceOf);
    forall i | 0 <= i < |opts| ensures opts[i] in f {
      assert opts[i] in multiset(opts);
    }
    OptionsStrict(f, opts);
    forall k | 0 <= k < |rows| ensures rows[k].sourceLocation in Places(opts) {
      var p :| 0 <= p < |f| && Places(f)[p] == rows[k].sourceLocation;
      assert f[p] in multiset(opts);
      var i :| 0 <= i < |opts| && opts[i] == f[p];
      assert Places(opts)[i] == rows[k].sourceLocation;
    }
  }

  /** A name-ordered rearrangement of options with distinct places is strictly ascending. */
  lemma OptionsStrict(f: seq<AreaOption>, opts: seq<AreaOption>)
    requires Distinct(Places(f))
    requires NameOrdered(opts, PlaceOf) && multiset(opts) == multiset(f)
    requires forall i :: 0 <= i < |opts| ==> opts[i] in f
    ensures forall i, j :: 0 <= i < j < |opts| ==> LexLess(opts[i].place, opts[j].place)
  {
    assert Distinct(f) by {
      forall p, q | 0 <= p < q < |f| ensures f[p] != f[q] {
        assert Places(f)[p] != Places(f)[q];
      }
    }
    PermutationDistinct(f, opts);
    forall i, j | 0 <= i < j < |opts| ensures LexLess(opts[i].place, opts[j].place) {
      assert !LexLess(PlaceOf(opts[j]), PlaceOf(opts[i]));
      var p :| 0 <= p < |f| && f[p] == opts[i];
      var q :| 0 <= q < |f| && f[q] == opts[j];
      assert Places(f)[p] != Places(f)[q];
      LexLessTotal(opts[i].place, opts[j].place);
    }
  }

  // ---- colour scale ----

  /** `getColor`: soft grey for a missing or negative score; otherwise the band
      of the crime bucket fraction or of the clamped sentiment. */
  function GetColor(score: Option<real>, t: ScoreType): (c: Color)
    ensures c == Neutral(SoftGray) <==> score.None? || score.value < 0.0
    ensures c != Neutral(SoftGray) ==> c.Swatch?
  {
    if score.None? || score.value < 0.0 then Neutral(SoftGray)
    else
      match t
      case CrimeScore => Swatch(BandOf(BucketIndex(CrimeThresholds, score.value) as real / 10.0))
      case SentimentScore => Swatch(BandOf(Clamp01(score.value)))
  }

  /** A higher crime score never gets a less severe band. */
  lemma CrimeColorMonotone(a: real, b: real)
    requires 0.0 <= a <= b
    ensures BandLevel(GetColor(Some(a), CrimeScore).band) <= BandLevel(GetColor(Some(b), CrimeScore).band)
  {
    BucketMonotone(CrimeThresholds, a, b);
    var ia, ib := BucketIndex(CrimeThresholds, a), BucketIndex(CrimeThresholds, b);
    BandOfMonotone(ia as real / 10.0, ib as real / 10.0);
  }

  /** The band of a few crime scores: 0 is green and 10 (bucket 6) orange. */
  lemma CrimeColorCases()
    ensures GetColor(Some(0.0), CrimeScore) == Swatch(Green) && BandHex(Green) == "#33cc33"
    ensures GetColor(Some(10.0), CrimeScore) == Swatch(Orange) && BandHex(Orange) == "#ff9933"
  {
    CrimeBucketRange(0.0);
    CrimeBucketOfTen();
  }

  /** From 25 on (bucket 10, past the 23 threshold) the band is red. */
  lemma CrimeColorRed(score: real)
    requires score >= 25.0
    ensures GetColor(Some(score), CrimeScore) == Swatch(Red) && BandHex(Red) == "#ff3333"
  {
    CrimeBucketOfTwentyFive();
    BucketMonotone(CrimeThresholds, 25.0, score);
  }

  /** Sentiment is clamped before banding: from 0.8 on (above 1 included) red,
      below 0.2 green, and a higher score never gets a less severe band. */
  lemma SentimentColorBands(a: real, b: real)
    requires 0.0 <= a <= b
    ensures a >= 0.8 ==> GetColor(Some(a), SentimentScore) == Swatch(Red)
    ensures a < 0.2 ==> GetColor(Some(a), SentimentScore) == Swatch(Green)
    ensures BandLevel(GetColor(Some(a), SentimentScore).band) <= BandLevel(GetColor(Some(b), SentimentScore).band)
  {
    Clamp01Monotone(a, b);
    BandOfMonotone(Clamp01(a), Clamp01(b));
  }

  // ---- top five areas ----

  /** A leaderboard entry. */
  datatype AreaScore = AreaScore(name: string, score: real, wardCode: string)

  function ScoreOf(a: AreaScore): real
  {
    a.score
  }

  /** `entry['source_location'] || 'Unknown Area'`. */
  function NameOrUnknown(name: string): (r: string)
    ensures r != ""
    ensures name != "" ==> r == name
  {
    if name == "" then "Unknown Area" else name
  }

  /** The entry a row contributes: rows of the period whose metric parses. */
  function ScoreRecord(year: int, month: int, t: ScoreType, r: Row): Option<AreaScore>
  {
    if r.year == year && r.month == month then
      match ParseFloat(Value(r, MetricOf(t)))
      case None => None
      case Some(v) => Some(AreaScore(NameOrUnknown(r.sourceLocation), v, r.wardCode))
    else None
  }

  /** `areaScores` once every row has been visited. */
  function PeriodScores(rows: seq<Row>, year: int, month: int, t: ScoreType): seq<AreaScore>
  {
    if rows == [] then []
    else
      var p := PeriodScores(rows[..|rows| - 1], year, month, t);
      match ScoreRecord(year, month, t, rows[|rows| - 1])
      case None => p
      case Some(a) => p + [a]
  }

  /** The period's entries are exactly the records its rows contribute. */
  lemma {:induction false} PeriodScoresMembers(rows: seq<Row>, year: int, month: int, t: ScoreType)
    ensures forall a :: a in PeriodScores(rows, year, month, t) <==>
              exists i :: 0 <= i < |rows| && ScoreRecord(year, month, t, rows[i]) == Some(a)
  {
    if rows != [] {
      var init := rows[..|rows| - 1];
      PeriodScoresMembers(init, year, month, t);
      assert forall i :: 0 <= i < |init| ==> init[i] == rows[i];
    }
  }

  /** `topAreas`: the five highest-scoring entries of the period. */
  method TopAreas(rows: seq<Row>, year: int, month: int, t: ScoreType) returns (top: seq<AreaScore>)
    ensures top == Take(SortBy(PeriodScores(rows, year, month, t), ScoreOf, true), 5)
  {
    var areaScores: seq<AreaScore> := [];
    var i := 0;
    while i < |rows|
      invariant 0 <= i <= |rows|
      invariant areaScores == PeriodScores(rows[..i], year, month, t)
    {
      var entry := rows[i];
      if entry.year == year && entry.month == month {
        var score := ParseFloat(Value(entry, MetricOf(t)));
        if score.Some? {
          areaScores := areaScores + [AreaScore(NameOrUnknown(entry.sourceLocation), score.value, entry.wardCode)];
        }
      }
      assert rows[..i + 1][..i] == rows[..i];
      i := i + 1;
    }
    assert rows[..|rows|] == rows;
    top := Take(SortBy(areaScores, ScoreOf, true), 5);
  }

  /** The leaderboard has at most five entries drawn from the period's
      entries, in non-increasing score order, and no period entry left out
      scores above the last one kept. */
  lemma TopAreasCorrect(rows: seq<Row>, year: int, month: int, t: ScoreType)
    ensures var top := Take(SortBy(PeriodScores(rows, year, month, t), ScoreOf, true), 5);
      && |top| <= 5
      && Ordered(top, ScoreOf, true)
      && multiset(top) <= multiset(PeriodScores(rows, year, month, t))
      && (top != [] ==> forall a :: a in multiset(PeriodScores(rows, year, month, t)) - multiset(top) ==>
            a.score <= top[|top| - 1].score)
  {
    TopFiveAreas(PeriodScores(rows, year, month, t));
  }

  lemma TopFiveAreas(scores: seq<AreaScore>)
    ensures var top := Take(SortBy(scores, ScoreOf, true), 5);
      && |top| <= 5
      && Ordered(top, ScoreOf, true)
      && multiset(top) <= multiset(scores)
      && (top != [] ==> forall a :: a in multiset(scores) - multiset(top) ==> a.score <= top[|top| - 1].score)
  {
    var top := Take(SortBy(scores, ScoreOf, true), 5);
    TopN(scores, ScoreOf, true, 5);
    if top != [] {
      forall a: AreaScore | a in multiset(scores) - multiset(top)
        ensures a.score <= top[|top| - 1].score
      {
        assert Precedes(true, ScoreOf(top[|top| - 1]), ScoreOf(a));
      }
    }
  }

  /** Every leaderboard entry comes from a row of the selected period whose metric parses. */
  lemma TopAreasFromPeriod(rows: seq<Row>, year: int, month: int, t: ScoreType, a: AreaScore)
    requires a in Take(SortBy(PeriodScores(rows, year, month, t), ScoreOf, true), 5)
    ensures exists i :: 0 <= i < |rows| && ScoreRecord(year, month, t, rows[i]) == Some(a)
  {
    var scores := PeriodScores(rows, year, month, t);
    PeriodScoresMembers(rows, year, month, t);
    var top := Take(SortBy(scores, ScoreOf, true), 5);
    TopN(scores, ScoreOf, true, 5);
    assert a in multiset(top);
    assert a in scores;
  }

  // ---- top crimes of the selected area ----

  /** `areaCrimeDetails`: the first row of the selected option's ward code in
      the period; nothing when no option is selected or no row matches. */
  function AreaCrimeDetails(rows: seq<Row>, selected: Option<AreaOption>, year: int, month: int): (r: Option<Row>)
    ensures selected.None? ==> r.None?
    ensures selected.Some? && r.None? ==> forall i :: 0 <= i < |rows| ==>
              !(rows[i].wardCode == selected.value.wardCode && rows[i].year == year && rows[i].month == month)
    ensures r.Some? ==> selected.Some? && r == FindPeriodRow(rows, selected.value.wardCode, year, month)
  {
    if selected.None? then None else FindPeriodRow(rows, selected.value.wardCode, year, month)
  }

  function FindPeriodRow(rows: seq<Row>, code: string, year: int, month: int): (r: Option<Row>)
    ensures r.None? ==> forall i :: 0 <= i < |rows| ==> !(rows[i].wardCode == code && rows[i].year == year && rows[i].month == month)
    ensures r.Some? ==>
              exists i ::
                && 0 <= i < |rows| && rows[i] == r.value
                && r.value.wardCode == code && r.value.year == year && r.value.month == month
                && forall j :: 0 <= j < i ==> !(rows[j].wardCode == code && rows[j].year == year && rows[j].month == month)
  {
    if rows == [] then None
    else if rows[0].wardCode == code && rows[0].year == year && rows[0].month == month then Some(rows[0])
    else
      var r := FindPeriodRow(rows[1..], code, year, month);
      assert forall j :: 1 <= j < |rows| ==> rows[j] == rows[1..][j - 1];
      r
  }

  /** A crime category and its count. */
  datatype CrimeCount = CrimeCount(crime: string, value: real)

  function CountOf(c: CrimeCount): real
  {
    c.value
  }

  /** The row's crime categories with a positive numeric count, in key order. */
  function PositiveCrimes(fields: seq<(string, Field)>): seq<CrimeCount>
  {
    if fields == [] then []
    else
      var rest := PositiveCrimes(fields[1..]);
      var (key, value) := fields[0];
      if key !in MetaFields && value.Number? && value.n > 0.0 then [CrimeCount(key, value.n)] + rest else rest
  }

  /** A category is kept exactly when it is not a meta field and holds a positive number. */
  lemma {:induction false} PositiveCrimesMembers(fields: seq<(string, Field)>)
    ensures forall c :: c in PositiveCrimes(fields) <==>
              c.crime !in MetaFields && c.value > 0.0 && (c.crime, Number(c.value)) in fields
  {
    if fields != [] {
      PositiveCrimesMembers(fields[1..]);
      assert forall x :: x in fields <==> x == fields[0] || x in fields[1..];
    }
  }

  /** `topCrimes`: the five largest positive crime counts of the details row. */
  function TopCrimes(details: Option<Row>): seq<CrimeCount>
  {
    match details
    case None => []
    case Some(r) => Take(SortBy(PositiveCrimes(r.others), CountOf, true), 5)
  }

  /** At most five entries, in non-increasing order, drawn from the row's
      positive categories, and no positive category left out exceeds the last
      one kept. */
  lemma TopCrimesCorrect(r: Row)
    ensures var top := TopCrimes(Some(r));
      && |top| <= 5
      && Ordered(top, CountOf, true)
      && multiset(top) <= multiset(PositiveCrimes(r.others))
      && (top != [] ==> forall c :: c in multiset(PositiveCrimes(r.others)) - multiset(top) ==>
            c.value <= top[|top| - 1].value)
  {
    var cs := PositiveCrimes(r.others);
    assert TopCrimes(Some(r)) == Take(SortBy(cs, CountOf, true), 5);
    TopFive(cs);
  }

  lemma TopFive(cs: seq<CrimeCount>)
    ensures var top := Take(SortBy(cs, CountOf, true), 5);
      && |top| <= 5
      && Ordered(top, CountOf, true)
      && multiset(top) <= multiset(cs)
      && (top != [] ==> forall c :: c in multiset(cs) - multiset(top) ==> c.value <= top[|top| - 1].value)
  {
    var top := Take(SortBy(cs, CountOf, true), 5);
    TopN(cs, CountOf, true, 5);
    if top != [] {
      forall c: CrimeCount | c in multiset(cs) - multiset(top)
        ensures c.value <= top[|top| - 1].value
      {
        assert Precedes(true, CountOf(top[|top| - 1]), CountOf(c));
      }
    }
  }

  /** Every listed crime is a category of the row, not a meta field, with a
      positive numeric count. */
  lemma TopCrimeFromRow(r: Row, c: CrimeCount)
    requires c in TopCrimes(Some(r))
    ensures c.crime !in MetaFields && c.value > 0.0 && (c.crime, Number(c.value)) in r.others
  {
    var cs := PositiveCrimes(r.others);
    TopN(cs, CountOf, true, 5);
    assert c in multiset(TopCrimes(Some(r)));
    assert c in cs;
    PositiveCrimesMembers(r.others);
  }
}
